/** The bounded tool-calling loop and its only way out: the evidence gate. */
module AgentLoop {
  import opened Wrappers
  import opened Evidence
  import opened Protocol
  import opened Registry
  import opened ModelClient

  datatype Final = Final(action: Action, decision: Decision)

  /** The two turn kinds of the protocol; the decoder may deliver any other text. */
  datatype Kind = ToolCalls | FinalAnswer | UnsupportedKind(text: string)

  datatype Turn = Turn(kind: Kind, calls: seq<ToolCall>, final: Option<Final>)

  datatype ToolResult = ToolResult(id: string, name: string, outcome: Result<Output, ToolError>)

  datatype Message =
    | System(instructions: string)
    | CaseIndex(taskId: string, checksum: string, characters: nat, volunteerRank: int)
    | Assistant(raw: string)
    | ToolResults(results: seq<ToolResult>)

  datatype ToolTrace = ToolTrace(name: string, success: bool, itemCount: nat)

  datatype Status = Running | Completed | Failed

  datatype Trace = Trace(
    kernelBuild: string, turns: nat, toolCallCount: nat, toolCalls: seq<ToolTrace>,
    inputTokens: nat, outputTokens: nat, status: Status)

  datatype Proposal = Proposal(version: string, taskId: string, pinId: string, action: Action, decision: Decision, trace: Trace)

  datatype Cause =
    | InvalidModelUrl | ModelFailure(error: ClientError) | UnreadableTurn | MalformedToolTurn | ToolBudgetExceeded
    | MalformedFinalTurn | ActionMismatch | InvalidEvaluation | EvidenceMissing | EvidenceUnverifiable
    | UnknownKind | TurnBudgetExhausted

  /** err and trace of a failed evaluation travel together. */
  datatype AgentError = AgentError(cause: Cause, trace: Trace)

  /** The outside world: the URL check, the JSON decoder of model output and the model service. */
  datatype World = World(urlOk: string -> bool, parseTurn: string -> Option<Turn>, service: Service)

  // ----- The gate -----

  predicate QuotesVerified(u: Unicode, text: string, quotes: seq<string>) {
    forall quote | quote in quotes :: ContainsNormalized(u, text, quote)
  }

  /** A final answer that may leave the kernel. */
  predicate Acceptable(u: Unicode, text: string, f: Final) {
    && f.action == f.decision.recommendation
    && ValidDecision(f.decision)
    && (!f.decision.recommendation.Archive? ==> f.decision.evidence + f.decision.specialistEvidence != [])
    && QuotesVerified(u, text, f.decision.evidence + f.decision.specialistEvidence)
  }

  method VerifyFinalEvidence(u: Unicode, text: string, d: Decision) returns (cause: Option<Cause>)
    ensures cause.None? <==>
      && (!d.recommendation.Archive? ==> d.evidence + d.specialistEvidence != [])
      && QuotesVerified(u, text, d.evidence + d.specialistEvidence)
    ensures cause == Some(EvidenceMissing) <==> !d.recommendation.Archive? && d.evidence + d.specialistEvidence == []
    ensures cause.Some? ==> cause.value in {EvidenceMissing, EvidenceUnverifiable}
  {
    var quotes := d.evidence;
    quotes := quotes + d.specialistEvidence;
    if !d.recommendation.Archive? && |quotes| == 0 {
      return Some(EvidenceMissing);
    }
    for i := 0 to |quotes|
      invariant QuotesVerified(u, text, quotes[..i])
    {
      if !ContainsNormalized(u, text, quotes[i]) {
        assert quotes[i] in quotes;
        return Some(EvidenceUnverifiable);
      }
      assert quotes[..i + 1] == quotes[..i] + [quotes[i]];
    }
    assert quotes[..|quotes|] == quotes;
    return None;
  }

  /** Quotes that the verification tool has confirmed pass the final gate. */
  lemma ToolAgreesWithGate(u: Unicode, text: string, quotes: seq<Json>, items: seq<Verdict>, d: Decision)
    requires Judges(u, text, quotes, items) && forall i | 0 <= i < |items| :: items[i].verified
    requires forall quote | quote in d.evidence + d.specialistEvidence :: Text(quote) in quotes
    requires !d.recommendation.Unsupported? && ValidScores(d.scores) && UnitInterval(d.specialistConfidence)
    requires d.evidence + d.specialistEvidence != []
    ensures Acceptable(u, text, Final(d.recommendation, d))
  {
    forall quote | quote in d.evidence + d.specialistEvidence ensures ContainsNormalized(u, text, quote) {
      var i :| 0 <= i < |quotes| && quotes[i] == Text(quote);
      assert items[i].verified;
    }
  }

  /** What may leave the kernel: equal action and recommendation, one of the three actions, scores and confidence in
      [0, 1], evidence unless archiving, and only quotes with four visible runes that a slice of the resume matches. */
  lemma AcceptableIff(u: Unicode, text: string, f: Final)
    ensures Acceptable(u, text, f) <==>
      && f.action == f.decision.recommendation && f.action in {Dispatch, Review, Archive}
      && 0.0 <= f.decision.scores.major <= 1.0 && 0.0 <= f.decision.scores.skills <= 1.0
      && 0.0 <= f.decision.scores.experience <= 1.0 && 0.0 <= f.decision.scores.requirement <= 1.0
      && 0.0 <= f.decision.scores.quality <= 1.0 && 0.0 <= f.decision.specialistConfidence <= 1.0
      && (f.action != Archive ==> |f.decision.evidence| + |f.decision.specialistEvidence| > 0)
      && forall quote | quote in f.decision.evidence || quote in f.decision.specialistEvidence ::
           && Visible(u, quote) >= 4
           && exists a: nat, b: nat | a <= b <= |text| :: Normalize(u, text[a..b]) == Normalize(u, quote)
  {
    var quotes := f.decision.evidence + f.decision.specialistEvidence;
    forall quote | quote in quotes
      ensures ContainsNormalized(u, text, quote) <==>
        && Visible(u, quote) >= 4
        && exists a: nat, b: nat | a <= b <= |text| :: Normalize(u, text[a..b]) == Normalize(u, quote)
    {
      GateIff(u, text, quote);
    }
    assert forall quote :: quote in quotes <==> quote in f.decision.evidence || quote in f.decision.specialistEvidence;
  }

  // ----- One tool turn -----

  ghost predicate IsToolTurn(turn: Turn) {
    turn.kind.ToolCalls? && turn.calls != [] && turn.final.None?
  }

  ghost predicate Executed(u: Unicode, text: string, call: ToolCall, result: ToolResult) {
    && result.id == call.id && result.name == call.name
    && (result.outcome.Err? <==> Rejection(u, call).Some?)
    && (result.outcome.Ok? ==> Answers(u, text, call, result.outcome.value))
  }

  ghost predicate AllExecuted(u: Unicode, text: string, calls: seq<ToolCall>, results: seq<ToolResult>) {
    && |calls| == |results|
    && (calls == [] ||
        var n := |calls| - 1;
        Executed(u, text, calls[n], results[n]) && AllExecuted(u, text, calls[..n], results[..n]))
  }

  function Traced(result: ToolResult): ToolTrace {
    ToolTrace(result.name, result.outcome.Ok?, if result.outcome.Ok? then result.outcome.value.count else 0)
  }

  function TracedAll(results: seq<ToolResult>): (traces: seq<ToolTrace>)
    ensures |traces| == |results| && forall i | 0 <= i < |traces| ::
      && traces[i].name == results[i].name && (traces[i].success <==> results[i].outcome.Ok?)
      && traces[i].itemCount == if results[i].outcome.Ok? then results[i].outcome.value.count else 0
  {
    if results == [] then [] else TracedAll(results[..|results| - 1]) + [Traced(results[|results| - 1])]
  }

  lemma ToolNext(u: Unicode, text: string, calls: seq<ToolCall>, i: nat, results: seq<ToolResult>, result: ToolResult)
    requires i < |calls| && AllExecuted(u, text, calls[..i], results) && Executed(u, text, calls[i], result)
    ensures AllExecuted(u, text, calls[..i + 1], results + [result])
    ensures TracedAll(results + [result]) == TracedAll(results) + [Traced(result)]
  {
    assert (results + [result])[..i] == results && calls[..i + 1][..i] == calls[..i];
  }

  /** Every call is executed in order, and the trace gains one entry for each. */
  method RunTools(u: Unicode, text: string, calls: seq<ToolCall>, trace: Trace) returns (results: seq<ToolResult>, trace': Trace)
    ensures AllExecuted(u, text, calls, results)
    ensures trace' == trace.(toolCallCount := trace.toolCallCount + |calls|, toolCalls := trace.toolCalls + TracedAll(results))
    ensures |results| == |calls| && forall i | 0 <= i < |calls| :: results[i].id == calls[i].id && results[i].name == calls[i].name
  {
    results, trace' := [], trace;
    for i := 0 to |calls|
      invariant AllExecuted(u, text, calls[..i], results)
      invariant trace' == trace.(toolCallCount := trace.toolCallCount + i, toolCalls := trace.toolCalls + TracedAll(results))
    {
      var outcome := Execute(u, text, calls[i]);
      var result := ToolResult(calls[i].id, calls[i].name, outcome);
      ToolNext(u, text, calls, i, results, result);
      trace' := trace'.(toolCallCount := trace'.toolCallCount + 1, toolCalls := trace'.toolCalls + [Traced(result)]);
      results := results + [result];
    }
    assert calls[..|calls|] == calls;
    ResultsNameCalls(u, text, calls, results);
  }

  lemma {:induction false} ResultsNameCalls(u: Unicode, text: string, calls: seq<ToolCall>, results: seq<ToolResult>)
    requires AllExecuted(u, text, calls, results)
    ensures |results| == |calls| && forall i | 0 <= i < |calls| :: results[i].id == calls[i].id && results[i].name == calls[i].name
  {
    if calls != [] {
      ResultsNameCalls(u, text, calls[..|calls| - 1], results[..|calls| - 1]);
    }
  }

  // ----- The conversation -----

  /** Messages k and k + 1 are a tool turn of the model and the results of its calls. */
  ghost predicate Exchange(u: Unicode, world: World, text: string, ask: Message, answer: Message) {
    && ask.Assistant? && answer.ToolResults?
    && var turn := world.parseTurn(ask.raw);
       turn.Some? && IsToolTurn(turn.value) && AllExecuted(u, text, turn.value.calls, answer.results)
  }

  function Opening(e: Envelope): seq<Message> {
    [System(e.instructions), CaseIndex(e.taskId, e.checksum, |e.text|, e.constraints.volunteerRank)]
  }

  /** Two opening messages and then one exchange per tool turn; the trace lists exactly the calls
      of these exchanges, in order. */
  ghost predicate Conversation(u: Unicode, world: World, e: Envelope, messages: seq<Message>, traced: seq<ToolTrace>)
    decreases |messages|
  {
    if |messages| <= 2 then messages == Opening(e) && traced == []
    else
      var n := |messages| - 2;
      && Exchange(u, world, e.text, messages[n], messages[n + 1])
      && var latest := TracedAll(messages[n + 1].results);
         |latest| <= |traced|
         && traced == traced[..|traced| - |latest|] + latest
         && Conversation(u, world, e, messages[..n], traced[..|traced| - |latest|])
  }

  lemma AddExchange(u: Unicode, world: World, e: Envelope, messages: seq<Message>, traced: seq<ToolTrace>, ask: Message, answer: Message)
    requires |messages| >= 2 && Conversation(u, world, e, messages, traced) && Exchange(u, world, e.text, ask, answer)
    ensures Conversation(u, world, e, messages + [ask, answer], traced + TracedAll(answer.results))
  {
    assert (messages + [ask, answer])[..|messages|] == messages;
    var longer := traced + TracedAll(answer.results);
    assert longer[..|traced|] == traced;
  }

  lemma {:induction false} ConversationOpens(u: Unicode, world: World, e: Envelope, messages: seq<Message>, traced: seq<ToolTrace>)
    requires Conversation(u, world, e, messages, traced) && |messages| >= 2
    ensures messages[0] == System(e.instructions)
    ensures messages[1] == CaseIndex(e.taskId, e.checksum, |e.text|, e.constraints.volunteerRank)
    decreases |messages|
  {
    if |messages| > 2 {
      var n := |messages| - 2;
      var latest := TracedAll(messages[n + 1].results);
      if n >= 2 {
        ConversationOpens(u, world, e, messages[..n], traced[..|traced| - |latest|]);
      }
    }
  }

  /** What `turns` calls of the model client may cost. */
  ghost predicate WithinTurns(requests: nat, slept: nat, turns: nat, retryCount: nat) {
    && requests <= turns * (retryCount + 1)
    && slept <= turns * (BASE_DELAY * (Pow2(retryCount) - 1))
  }

  lemma AddTurn(requests: nat, slept: nat, turns: nat, retryCount: nat, more: nat, pause: nat)
    requires WithinTurns(requests, slept, turns, retryCount)
    requires more <= retryCount + 1 && pause <= BASE_DELAY * (Pow2(retryCount) - 1)
    ensures WithinTurns(requests + more, slept + pause, turns + 1, retryCount)
  {
  }

  /** The final answer of a turn, if it is one. */
  function FinalOf(turn: Turn): Option<Final> {
    if turn.kind.FinalAnswer? && turn.calls == [] then turn.final else None
  }

  /** The final answer, if any, in the last reply of the service. */
  ghost function LastFinal(world: World, requests: nat): Option<Final> {
    if requests == 0 || !world.service(requests - 1).answer.Reply? then None
    else
      match world.parseTurn(world.service(requests - 1).answer.content)
      case None => None
      case Some(turn) => FinalOf(turn)
  }

  // ----- Why an evaluation fails -----

  /** Why a turn with tool calls is refused when `used` calls were made before it. */
  ghost predicate ToolsRefused(e: Envelope, turn: Turn, used: nat, cause: Cause) {
    if turn.calls == [] || turn.final.Some? then cause == MalformedToolTurn
    else cause == ToolBudgetExceeded && used + |turn.calls| > e.budget.maxToolCalls
  }

  /** Why a final turn is refused: the first thing that is wrong with it. */
  ghost predicate FinalRefused(u: Unicode, e: Envelope, turn: Turn, cause: Cause) {
    if turn.final.None? || turn.calls != [] then cause == MalformedFinalTurn
    else
      var final := turn.final.value;
      var quotes := final.decision.evidence + final.decision.specialistEvidence;
      if final.action != final.decision.recommendation then cause == ActionMismatch
      else if !ValidDecision(final.decision) then cause == InvalidEvaluation
      else if final.action != Archive && quotes == [] then cause == EvidenceMissing
      else cause == EvidenceUnverifiable && exists quote :: quote in quotes && !ContainsNormalized(u, e.text, quote)
  }

  ghost predicate TurnRefused(u: Unicode, e: Envelope, turn: Turn, used: nat, cause: Cause) {
    match turn.kind
    case ToolCalls => ToolsRefused(e, turn, used, cause)
    case FinalAnswer => FinalRefused(u, e, turn, cause)
    case UnsupportedKind(_) => cause == UnknownKind
  }

  /** The last request explains the failure: it failed itself, or its reply is not a turn. */
  ghost predicate RequestRefused(world: World, requests: nat, cause: Cause) {
    && requests > 0
    && match world.service(requests - 1).answer
       case Failure(_, error) => cause == ModelFailure(RequestFailed(error)) || cause == ModelFailure(ContextDone)
       case Reply(content, _) => world.parseTurn(content).None? && cause == UnreadableTurn
  }

  ghost predicate Replied(world: World, requests: nat, turn: Turn) {
    && requests > 0 && world.service(requests - 1).answer.Reply?
    && world.parseTurn(world.service(requests - 1).answer.content) == Some(turn)
  }

  /** An evaluation fails only because of its last request, or of the turn in the last reply. */
  ghost predicate Explains(u: Unicode, world: World, e: Envelope, requests: nat, used: nat, cause: Cause) {
    RequestRefused(world, requests, cause) || exists turn :: Replied(world, requests, turn) && TurnRefused(u, e, turn, used, cause)
  }

  method ToolTurn(u: Unicode, e: Envelope, turn: Turn, trace: Trace)
    returns (cause: Option<Cause>, results: seq<ToolResult>, trace': Trace)
    requires turn.kind.ToolCalls?
    ensures cause.None? <==> IsToolTurn(turn) && trace.toolCallCount + |turn.calls| <= e.budget.maxToolCalls
    ensures cause.None? ==>
      && AllExecuted(u, e.text, turn.calls, results)
      && trace' == trace.(toolCallCount := trace.toolCallCount + |results|, toolCalls := trace.toolCalls + TracedAll(results))
    ensures cause.Some? ==> ToolsRefused(e, turn, trace.toolCallCount, cause.value) && trace' == trace
  {
    results, trace' := [], trace;
    if |turn.calls| == 0 || turn.final.Some? {
      return Some(MalformedToolTurn), results, trace';
    }
    if trace.toolCallCount + |turn.calls| > e.budget.maxToolCalls {
      return Some(ToolBudgetExceeded), results, trace';
    }
    results, trace' := RunTools(u, e.text, turn.calls, trace);
    cause := None;
  }

  method FinalTurn(u: Unicode, e: Envelope, turn: Turn) returns (cause: Option<Cause>)
    requires turn.kind.FinalAnswer?
    ensures cause.None? <==> turn.calls == [] && turn.final.Some? && Acceptable(u, e.text, turn.final.value)
    ensures cause.Some? ==> FinalRefused(u, e, turn, cause.value)
  {
    if turn.final.None? || |turn.calls| != 0 {
      return Some(MalformedFinalTurn);
    }
    var final := turn.final.value;
    if final.action != final.decision.recommendation {
      return Some(ActionMismatch);
    }
    if !ValidDecision(final.decision) {
      return Some(InvalidEvaluation);
    }
    cause := VerifyFinalEvidence(u, e.text, final.decision);
  }

  /** The tokens of all replies among the first n requests. */
  ghost function UsedTokens(service: Service, n: nat): Usage {
    if n == 0 then NO_USAGE
    else
      var before := UsedTokens(service, n - 1);
      match service(n - 1).answer
      case Reply(_, usage) => Usage(before.inputTokens + usage.inputTokens, before.outputTokens + usage.outputTokens)
      case Failure(_, _) => before
  }

  /** Attempts that are followed by another one cost no tokens. */
  lemma {:induction false} RetriesUseNoTokens(service: Service, from: nat, to: nat)
    requires from <= to && forall n | from <= n < to :: Continues(service, n)
    ensures UsedTokens(service, to) == UsedTokens(service, from)
  {
    if from < to {
      RetriesUseNoTokens(service, from, to - 1);
      assert Continues(service, to - 1);
    }
  }

  function Fail(cause: Cause, trace: Trace): Result<Proposal, AgentError> {
    Err(AgentError(cause, trace.(status := Failed)))
  }

  /** The conversation and its cost when the loop stops in turn trace.turns. */
  ghost predicate Accounted(
      u: Unicode, world: World, e: Envelope, messages: seq<Message>, requests: nat, slept: nat, trace: Trace, toolTurns: nat)
    requires Bounded(e)
  {
    && |messages| == 2 + 2 * toolTurns
    && Conversation(u, world, e, messages, trace.toolCalls)
    && trace.toolCallCount == |trace.toolCalls| <= e.budget.maxToolCalls
    && WithinTurns(requests, slept, trace.turns, e.model.retryCount)
    && Usage(trace.inputTokens, trace.outputTokens) == UsedTokens(world.service, requests)
  }

  function TraceOf(r: Result<Proposal, AgentError>): Trace {
    if r.Ok? then r.value.trace else r.error.trace
  }

  /** Asks the model for one turn. */
  method Ask(world: World, e: Envelope, requests: nat, slept: nat, trace: Trace)
    returns (r: Result<(string, Turn), Cause>, requests': nat, slept': nat, trace': Trace)
    requires Bounded(e) && trace.turns >= 1 && WithinTurns(requests, slept, trace.turns - 1, e.model.retryCount)
    requires Usage(trace.inputTokens, trace.outputTokens) == UsedTokens(world.service, requests)
    ensures WithinTurns(requests', slept', trace.turns, e.model.retryCount)
    ensures Usage(trace'.inputTokens, trace'.outputTokens) == UsedTokens(world.service, requests')
    ensures trace' == trace.(inputTokens := trace'.inputTokens, outputTokens := trace'.outputTokens)
    ensures r.Err? ==> RequestRefused(world, requests', r.error) && LastFinal(world, requests').None?
    ensures r.Ok? ==>
      var (raw, turn) := r.value;
      world.parseTurn(raw) == Some(turn) && Replied(world, requests', turn) && LastFinal(world, requests') == FinalOf(turn)
  {
    trace' := trace;
    var answer, next, pause := Complete(world.service, e.model.retryCount, requests);
    PauseBound(world.service, e.model.retryCount, requests, next, answer);
    AddTurn(requests, slept, trace.turns - 1, e.model.retryCount, next - requests, pause);
    requests', slept' := next, slept + pause;
    RetriesUseNoTokens(world.service, requests, next - 1);
    if answer.Err? {
      return Err(ModelFailure(answer.error)), requests', slept', trace';
    }
    var (raw, usage) := answer.value;
    trace' := trace'.(inputTokens := trace.inputTokens + usage.inputTokens, outputTokens := trace.outputTokens + usage.outputTokens);
    var output := world.parseTurn(raw);
    if output.None? {
      return Err(UnreadableTurn), requests', slept', trace';
    }
    r := Ok((raw, output.value));
  }

  /** How a turn ends an evaluation: with the reason why it failed, or with an acceptable final answer in a proposal. */
  ghost predicate Stopped(u: Unicode, world: World, e: Envelope, requests: nat, trace: Trace, r: Result<Proposal, AgentError>) {
    var last := LastFinal(world, requests);
    match r
    case Err(error) =>
      && error == AgentError(error.cause, trace.(status := Failed)) && (last.None? || !Acceptable(u, e.text, last.value))
      && Explains(u, world, e, requests, trace.toolCallCount, error.cause)
    case Ok(p) =>
      && p == Proposal(PROPOSAL_VERSION, e.taskId, e.pin.pinId, p.action, p.decision, trace.(status := Completed))
      && last == Some(Final(p.action, p.decision)) && Acceptable(u, e.text, last.value)
  }

  /** One iteration of the loop: either the evaluation ends, or one exchange is added. */
  method TakeTurn(u: Unicode, world: World, e: Envelope, messages: seq<Message>, requests: nat, slept: nat, trace: Trace)
    returns (r: Option<Result<Proposal, AgentError>>, messages': seq<Message>, requests': nat, slept': nat, trace': Trace)
    requires Bounded(e) && trace.turns >= 1
    requires Accounted(u, world, e, messages, requests, slept, trace.(turns := trace.turns - 1), trace.turns - 1)
    ensures Accounted(u, world, e, messages', requests', slept', trace', if r.Some? then trace.turns - 1 else trace.turns)
    ensures trace'.turns == trace.turns && trace'.kernelBuild == trace.kernelBuild
    ensures if r.None? then LastFinal(world, requests').None? else Stopped(u, world, e, requests', trace', r.value)
  {
    messages' := messages;
    var answer;
    answer, requests', slept', trace' := Ask(world, e, requests, slept, trace);
    if answer.Err? {
      return Some(Fail(answer.error, trace')), messages', requests', slept', trace';
    }
    var (raw, turn) := answer.value;
    match turn.kind
    case ToolCalls =>
      var cause, results, trace'' := ToolTurn(u, e, turn, trace');
      if cause.Some? {
        return Some(Fail(cause.value, trace')), messages', requests', slept', trace';
      }
      AddExchange(u, world, e, messages, trace'.toolCalls, Assistant(raw), ToolResults(results));
      return None, messages + [Assistant(raw), ToolResults(results)], requests', slept', trace'';
    case FinalAnswer =>
      var cause := FinalTurn(u, e, turn);
      if cause.Some? {
        return Some(Fail(cause.value, trace')), messages', requests', slept', trace';
      }
      var final := turn.final.value;
      var proposal := Proposal(PROPOSAL_VERSION, e.taskId, e.pin.pinId, final.action, final.decision, trace'.(status := Completed));
      return Some(Ok(proposal)), messages', requests', slept', trace';
    case UnsupportedKind(_) =>
      return Some(Fail(UnknownKind, trace')), messages', requests', slept', trace';
  }

  /** The loop: it ends with a turn that ends the evaluation, or when all turns are used. */
  method TakeTurns(u: Unicode, world: World, kernelBuild: string, e: Envelope)
    returns (r: Option<Result<Proposal, AgentError>>, messages: seq<Message>, requests: nat, slept: nat, trace: Trace)
    requires Bounded(e)
    ensures trace.kernelBuild == kernelBuild && 1 <= trace.turns <= e.budget.maxTurns
    ensures Accounted(u, world, e, messages, requests, slept, trace, if r.Some? then trace.turns - 1 else trace.turns)
    ensures r.None? ==> trace.turns == e.budget.maxTurns && LastFinal(world, requests).None?
    ensures r.Some? ==> Stopped(u, world, e, requests, trace, r.value)
  {
    trace := Trace(kernelBuild, 0, 0, [], 0, 0, Running);
    messages, requests, slept := [System(e.instructions), CaseIndex(e.taskId, e.checksum, |e.text|, e.constraints.volunteerRank)], 0, 0;
    for turn := 1 to e.budget.maxTurns + 1
      invariant trace.turns == turn - 1 && trace.kernelBuild == kernelBuild
      invariant Accounted(u, world, e, messages, requests, slept, trace, turn - 1)
      invariant LastFinal(world, requests).None?
    {
      r, messages, requests, slept, trace := TakeTurn(u, world, e, messages, requests, slept, trace.(turns := turn));
      if r.Some? {
        return;
      }
    }
    r := None;
  }

  lemma StatusIsNotAccounted(u: Unicode, world: World, e: Envelope, messages: seq<Message>, requests: nat, slept: nat, trace: Trace,
                             toolTurns: nat, status: Status)
    requires Bounded(e) && Accounted(u, world, e, messages, requests, slept, trace, toolTurns)
    ensures Accounted(u, world, e, messages, requests, slept, trace.(status := status), toolTurns)
  {
  }

  lemma WhatStopped(u: Unicode, world: World, e: Envelope, requests: nat, trace: Trace, r: Result<Proposal, AgentError>)
    requires Stopped(u, world, e, requests, trace, r)
    ensures TraceOf(r) == trace.(status := if r.Ok? then Completed else Failed)
    ensures r.Err? ==> r.error.cause != TurnBudgetExhausted && Explains(u, world, e, requests, trace.toolCallCount, r.error.cause)
    ensures r.Ok? <==> LastFinal(world, requests).Some? && Acceptable(u, e.text, LastFinal(world, requests).value)
    ensures r.Ok? ==>
      && r.value.version == "agent-action-proposal/v1" && r.value.taskId == e.taskId && r.value.pinId == e.pin.pinId
      && LastFinal(world, requests) == Some(Final(r.value.action, r.value.decision))
  {
  }

  method Run(u: Unicode, world: World, kernelBuild: string, e: Envelope)
    returns (r: Result<Proposal, AgentError>, messages: seq<Message>, requests: nat, slept: nat)
    requires Bounded(e)
    ensures TraceOf(r).kernelBuild == kernelBuild && TraceOf(r).status == (if r.Ok? then Completed else Failed)
    ensures !world.urlOk(e.model.baseUrl) ==>
      r == Fail(InvalidModelUrl, Trace(kernelBuild, 0, 0, [], 0, 0, Running)) && requests == slept == 0 && messages == []
    ensures world.urlOk(e.model.baseUrl) ==>
      var trace := TraceOf(r);
      var exhausted := r.Err? && r.error.cause == TurnBudgetExhausted;
      && 1 <= trace.turns <= e.budget.maxTurns
      && (exhausted ==> trace.turns == e.budget.maxTurns)
      && (r.Err? && !exhausted ==> Explains(u, world, e, requests, trace.toolCallCount, r.error.cause))
      && Accounted(u, world, e, messages, requests, slept, trace, if exhausted then trace.turns else trace.turns - 1)
    // The gate is the only exit with a result, and every acceptable final answer takes it.
    ensures r.Ok? <==> LastFinal(world, requests).Some? && Acceptable(u, e.text, LastFinal(world, requests).value)
    ensures r.Ok? ==>
      && r.value.version == "agent-action-proposal/v1" && r.value.taskId == e.taskId && r.value.pinId == e.pin.pinId
      && LastFinal(world, requests) == Some(Final(r.value.action, r.value.decision))
    ensures world.urlOk(e.model.baseUrl) ==>
      && |messages| >= 2 && messages[0] == System(e.instructions)
      && messages[1] == CaseIndex(e.taskId, e.checksum, |e.text|, e.constraints.volunteerRank)
  {
    if !world.urlOk(e.model.baseUrl) {
      return Fail(InvalidModelUrl, Trace(kernelBuild, 0, 0, [], 0, 0, Running)), [], 0, 0;
    }
    var ended, trace;
    ended, messages, requests, slept, trace := TakeTurns(u, world, kernelBuild, e);
    ConversationOpens(u, world, e, messages, trace.toolCalls);
    StatusIsNotAccounted(u, world, e, messages, requests, slept, trace, if ended.Some? then trace.turns - 1 else trace.turns,
                         if ended.Some? && ended.value.Ok? then Completed else Failed);
    if ended.Some? {
      WhatStopped(u, world, e, requests, trace, ended.value);
      return ended.value, messages, requests, slept;
    }
    return Fail(TurnBudgetExhausted, trace), messages, requests, slept;
  }

  /** With a validated envelope the costs of an evaluation have fixed ceilings. */
  lemma Ceilings(e: Envelope, requests: nat, slept: nat, turns: nat)
    requires Bounded(e) && turns <= e.budget.maxTurns && WithinTurns(requests, slept, turns, e.model.retryCount)
    ensures requests <= 48 && slept <= 62_000
  {
    Pow2Monotone(e.model.retryCount, 5);
    assert Pow2(5) == 32;
    var pause := BASE_DELAY * (Pow2(e.model.retryCount) - 1);
    assert turns * pause <= 8 * pause;
    assert turns * (e.model.retryCount + 1) <= 8 * (e.model.retryCount + 1);
  }
}
