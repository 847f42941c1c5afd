/** The case envelope and the screening result exchanged with the Agent Kernel. */
module Protocol {
  import opened Wrappers
  import opened Evidence

  const PROTOCOL_VERSION := "resume-agent/v1"
  const PROPOSAL_VERSION := "agent-action-proposal/v1"
  const TOOLSET_VERSION := "resume-readonly-tools/v1"
  const RESULT_VERSION := "resume-screening/v1"
  const POLICY_VERSION := "django-policy-gate/v1"

  datatype Pin = Pin(
    pinId: string, kernelBuild: string, protocolVersion: string, toolsetVersion: string,
    resultSchemaVersion: string, policyVersion: string, promptVersion: string, modelConfigRevision: string)

  datatype Constraints = Constraints(workflowRevision: int, volunteerRank: int, policies: seq<string>)

  datatype Model = Model(apiStyle: string, baseUrl: string, modelName: string, timeoutSeconds: real, retryCount: int)

  datatype Budget = Budget(maxTurns: int, maxToolCalls: int, maxDurationSeconds: int)

  datatype Envelope = Envelope(
    protocolVersion: string, taskId: string, idempotencyKey: string, pin: Pin, constraints: Constraints,
    volunteerPosition: string, jobPosition: string, responsibilities: string,
    checksum: string, text: string, instructions: string, model: Model, budget: Budget)

  datatype Violation =
    | UnsupportedProtocol | MissingIdentity | IncompatiblePin | IncompletePin | BadConstraints | BadChecksum
    | MissingText | TextTooLong | MissingResponsibilities | MissingPositions | BadApiStyle | MissingModel
    | BadTimeout | BadRetryCount | BadMaxTurns | BadMaxToolCalls | BadMaxDuration

  predicate Blank(u: Unicode, s: string) {
    Visible(u, s) == 0
  }

  predicate Hexadecimal(s: string) {
    forall i | 0 <= i < |s| :: '0' <= s[i] <= '9' || 'a' <= s[i] <= 'f' || 'A' <= s[i] <= 'F'
  }

  /** The length of a string in UTF-8 bytes, which is what len() returns. */
  function ByteLength(u: Unicode, s: string): nat {
    if s == [] then 0 else u.width(s[0]) + ByteLength(u, s[1..])
  }

  /** The budgets of a case: what the agent loop relies on. */
  predicate Bounded(e: Envelope) {
    1 <= e.budget.maxTurns <= 8 && 1 <= e.budget.maxToolCalls <= 16 && 0 <= e.model.retryCount <= 5
  }

  /** What each violation means for an envelope. */
  predicate Violates(u: Unicode, e: Envelope, v: Violation) {
    match v
    case UnsupportedProtocol => e.protocolVersion != PROTOCOL_VERSION
    case MissingIdentity => !(Named(u, e.taskId) && Named(u, e.idempotencyKey))
    case IncompatiblePin =>
      !(e.pin.protocolVersion == PROTOCOL_VERSION && e.pin.toolsetVersion == TOOLSET_VERSION
        && e.pin.resultSchemaVersion == RESULT_VERSION && e.pin.policyVersion == POLICY_VERSION)
    case IncompletePin =>
      !(Named(u, e.pin.pinId) && Named(u, e.pin.kernelBuild) && Named(u, e.pin.promptVersion) && Named(u, e.pin.modelConfigRevision))
    case BadConstraints =>
      !(e.constraints.workflowRevision >= 0 && 1 <= e.constraints.volunteerRank <= 4 && |e.constraints.policies| > 0)
    case BadChecksum => !(|e.checksum| == 64 && Hexadecimal(e.checksum))
    case MissingText => !Named(u, e.text)
    case TextTooLong => !(ByteLength(u, e.text) <= 60_000)
    case MissingResponsibilities => !Named(u, e.responsibilities)
    case MissingPositions => !(Named(u, e.volunteerPosition) && Named(u, e.jobPosition) && Named(u, e.instructions))
    case BadApiStyle => e.model.apiStyle !in {"chat_json", "responses"}
    case MissingModel => !(Named(u, e.model.baseUrl) && Named(u, e.model.modelName))
    case BadTimeout => !(0.0 < e.model.timeoutSeconds <= 1800.0)
    case BadRetryCount => !(0 <= e.model.retryCount <= 5)
    case BadMaxTurns => !(1 <= e.budget.maxTurns <= 8)
    case BadMaxToolCalls => !(1 <= e.budget.maxToolCalls <= 16)
    case BadMaxDuration => !(1 <= e.budget.maxDurationSeconds <= 1800)
  }

  /** A text with at least one visible rune. */
  predicate Named(u: Unicode, s: string) {
    Visible(u, s) > 0
  }

  /** The order in which violations are looked for. */
  function Rank(v: Violation): nat {
    match v
    case UnsupportedProtocol => 0
    case MissingIdentity => 1
    case IncompatiblePin => 2
    case IncompletePin => 3
    case BadConstraints => 4
    case BadChecksum => 5
    case MissingText => 6
    case TextTooLong => 7
    case MissingResponsibilities => 8
    case MissingPositions => 9
    case BadApiStyle => 10
    case MissingModel => 11
    case BadTimeout => 12
    case BadRetryCount => 13
    case BadMaxTurns => 14
    case BadMaxToolCalls => 15
    case BadMaxDuration => 16
  }

  function Validate(u: Unicode, e: Envelope): (violation: Option<Violation>)
    ensures violation.None? ==> Bounded(e)
  {
    if e.protocolVersion != PROTOCOL_VERSION then Some(UnsupportedProtocol)
    else if Blank(u, e.taskId) || Blank(u, e.idempotencyKey) then Some(MissingIdentity)
    else if e.pin.protocolVersion != PROTOCOL_VERSION || e.pin.toolsetVersion != TOOLSET_VERSION
            || e.pin.resultSchemaVersion != RESULT_VERSION || e.pin.policyVersion != POLICY_VERSION then Some(IncompatiblePin)
    else if Blank(u, e.pin.pinId) || Blank(u, e.pin.kernelBuild) || Blank(u, e.pin.promptVersion)
            || Blank(u, e.pin.modelConfigRevision) then Some(IncompletePin)
    else if e.constraints.workflowRevision < 0 || !(1 <= e.constraints.volunteerRank <= 4)
            || e.constraints.policies == [] then Some(BadConstraints)
    else if |e.checksum| != 64 || !Hexadecimal(e.checksum) then Some(BadChecksum)
    else if Blank(u, e.text) then Some(MissingText)
    else if ByteLength(u, e.text) > 60_000 then Some(TextTooLong)
    else if Blank(u, e.responsibilities) then Some(MissingResponsibilities)
    else if Blank(u, e.volunteerPosition) || Blank(u, e.jobPosition) || Blank(u, e.instructions) then Some(MissingPositions)
    else if e.model.apiStyle != "chat_json" && e.model.apiStyle != "responses" then Some(BadApiStyle)
    else if Blank(u, e.model.baseUrl) || Blank(u, e.model.modelName) then Some(MissingModel)
    else if e.model.timeoutSeconds <= 0.0 || e.model.timeoutSeconds > 1800.0 then Some(BadTimeout)
    else if !(0 <= e.model.retryCount <= 5) then Some(BadRetryCount)
    else if !(1 <= e.budget.maxTurns <= 8) then Some(BadMaxTurns)
    else if !(1 <= e.budget.maxToolCalls <= 16) then Some(BadMaxToolCalls)
    else if !(1 <= e.budget.maxDurationSeconds <= 1800) then Some(BadMaxDuration)
    else None
  }

  lemma ViolationIsReported(u: Unicode, e: Envelope, v: Violation)
    requires Violates(u, e, v)
    ensures Validate(u, e).Some? && Rank(Validate(u, e).value) <= Rank(v)
  {
  }

  lemma ReportedIsViolated(u: Unicode, e: Envelope, v: Violation)
    requires Validate(u, e) == Some(v)
    ensures Violates(u, e, v)
  {
  }

  /** The first violation in this order is reported, and none exactly if there is none. */
  lemma ValidateReportsFirst(u: Unicode, e: Envelope)
    ensures var violation := Validate(u, e);
      if violation.None? then forall v :: !Violates(u, e, v)
      else Violates(u, e, violation.value) && forall v | Violates(u, e, v) :: Rank(violation.value) <= Rank(v)
  {
    if Validate(u, e).Some? {
      ReportedIsViolated(u, e, Validate(u, e).value);
    }
    forall v | Violates(u, e, v) ensures Validate(u, e).Some? && Rank(Validate(u, e).value) <= Rank(v) {
      ViolationIsReported(u, e, v);
    }
  }

  lemma {:induction false} ByteLengthNext(u: Unicode, s: string, c: char)
    ensures ByteLength(u, "") == 0 && ByteLength(u, s + [c]) == ByteLength(u, s) + u.width(c)
  {
    if s != "" {
      ByteLengthNext(u, s[1..], c);
      assert (s + [c])[1..] == s[1..] + [c];
    }
  }

  ghost predicate HasVersions(e: Envelope) {
    && e.protocolVersion == e.pin.protocolVersion == "resume-agent/v1"
    && e.pin.toolsetVersion == "resume-readonly-tools/v1"
    && e.pin.resultSchemaVersion == "resume-screening/v1"
    && e.pin.policyVersion == "django-policy-gate/v1"
    && (e.model.apiStyle == "chat_json" || e.model.apiStyle == "responses")
  }

  lemma VersionsIff(u: Unicode, e: Envelope)
    ensures HasVersions(e) <==> !Violates(u, e, UnsupportedProtocol) && !Violates(u, e, IncompatiblePin) && !Violates(u, e, BadApiStyle)
  {
  }

  /** No text that has to be there consists of white space alone, and the checksum is a hexadecimal number. */
  ghost predicate HasTexts(u: Unicode, e: Envelope) {
    && Visible(u, e.taskId) > 0 && Visible(u, e.idempotencyKey) > 0
    && Visible(u, e.pin.pinId) > 0 && Visible(u, e.pin.kernelBuild) > 0
    && Visible(u, e.pin.promptVersion) > 0 && Visible(u, e.pin.modelConfigRevision) > 0
    && Visible(u, e.text) > 0 && Visible(u, e.responsibilities) > 0 && Visible(u, e.instructions) > 0
    && Visible(u, e.volunteerPosition) > 0 && Visible(u, e.jobPosition) > 0
    && Visible(u, e.model.baseUrl) > 0 && Visible(u, e.model.modelName) > 0
    && |e.checksum| == 64 && forall c | c in e.checksum :: c in "0123456789abcdefABCDEF"
  }

  lemma TextsIff(u: Unicode, e: Envelope)
    ensures HasTexts(u, e) <==>
      && !Violates(u, e, MissingIdentity) && !Violates(u, e, IncompletePin) && !Violates(u, e, BadChecksum)
      && !Violates(u, e, MissingText) && !Violates(u, e, MissingResponsibilities) && !Violates(u, e, MissingPositions)
      && !Violates(u, e, MissingModel)
  {
    HexadecimalIff(e.checksum);
  }

  ghost predicate HasNumbers(u: Unicode, e: Envelope) {
    && e.constraints.workflowRevision >= 0 && 1 <= e.constraints.volunteerRank <= 4 && e.constraints.policies != []
    && ByteLength(u, e.text) <= 60000
    && 0.0 < e.model.timeoutSeconds <= 1800.0 && 0 <= e.model.retryCount <= 5
    && 1 <= e.budget.maxTurns <= 8 && 1 <= e.budget.maxToolCalls <= 16 && 1 <= e.budget.maxDurationSeconds <= 1800
  }

  lemma NumbersIff(u: Unicode, e: Envelope)
    ensures HasNumbers(u, e) <==>
      && !Violates(u, e, BadConstraints) && !Violates(u, e, TextTooLong) && !Violates(u, e, BadTimeout)
      && !Violates(u, e, BadRetryCount) && !Violates(u, e, BadMaxTurns) && !Violates(u, e, BadMaxToolCalls)
      && !Violates(u, e, BadMaxDuration)
  {
  }

  /** The envelopes that pass: supported versions, visible texts, and numbers within the limits. */
  lemma AcceptedIff(u: Unicode, e: Envelope)
    ensures Validate(u, e).None? <==> HasVersions(e) && HasTexts(u, e) && HasNumbers(u, e)
  {
    VersionsIff(u, e);
    TextsIff(u, e);
    NumbersIff(u, e);
    NoneIff(u, e);
  }

  lemma NoneIff(u: Unicode, e: Envelope)
    ensures Validate(u, e).None? <==> forall v :: !Violates(u, e, v)
  {
    ValidateReportsFirst(u, e);
  }

  lemma HexadecimalIff(s: string)
    ensures Hexadecimal(s) <==> forall c | c in s :: c in "0123456789abcdefABCDEF"
  {
    forall c ensures c in "0123456789abcdefABCDEF" <==> '0' <= c <= '9' || 'a' <= c <= 'f' || 'A' <= c <= 'F' {
      DigitIff(c);
    }
    if forall c | c in s :: c in "0123456789abcdefABCDEF" {
      assert forall i | 0 <= i < |s| :: s[i] in s;
    }
  }

  lemma DigitIff(c: char)
    ensures c in "0123456789abcdefABCDEF" <==> '0' <= c <= '9' || 'a' <= c <= 'f' || 'A' <= c <= 'F'
  {
    var digits := "0123456789abcdefABCDEF";
    if '0' <= c <= '9' {
      assert digits[(c as int) - ('0' as int)] == c;
    } else if 'a' <= c <= 'f' {
      assert digits[10 + (c as int) - ('a' as int)] == c;
    } else if 'A' <= c <= 'F' {
      assert digits[16 + (c as int) - ('A' as int)] == c;
    }
  }

  // ----- Screening results -----

  datatype Scores = Scores(major: real, skills: real, experience: real, requirement: real, quality: real)

  /** The three actions of the protocol; the decoder may deliver any other text. */
  datatype Action = Dispatch | Review | Archive | Unsupported(text: string)

  datatype Decision = Decision(
    recommendation: Action, scores: Scores, evidence: seq<string>,
    specialistConfidence: real, specialistEvidence: seq<string>)

  predicate UnitInterval(x: real) {
    0.0 <= x <= 1.0
  }

  predicate ValidScores(s: Scores) {
    && UnitInterval(s.major) && UnitInterval(s.skills) && UnitInterval(s.experience)
    && UnitInterval(s.requirement) && UnitInterval(s.quality)
  }

  predicate ValidDecision(d: Decision) {
    && !d.recommendation.Unsupported?
    && ValidScores(d.scores)
    && UnitInterval(d.specialistConfidence)
  }
}
