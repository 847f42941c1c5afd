/** The status shown for a candidate, and the assignment attempt it is derived from. */
module CandidateStatus {
  import opened Wrappers

  datatype AttemptStatus = AwaitingDispatch | AwaitingReview | Dispatched | Passed | Rejected | Cancelled

  datatype Attempt = Attempt(id: nat, no: nat, resume: nat, status: AttemptStatus, department: Option<nat>, reasonCode: string)

  /** A resume: its volunteer rank, and the day of the application (0 if unknown). */
  datatype Resume = Resume(id: nat, rank: Option<nat>, day: nat)

  /** A workflow.  Evidence stands for an archive reason, a start time, or an agent decision. */
  datatype Workflow = Workflow(current: Option<nat>, attempts: seq<Attempt>, outOfHeadcount: bool, evidence: bool)

  /** A candidate.  Evidence stands for a classified resume or a finished processing item. */
  datatype Candidate = Candidate(resumes: seq<Resume>, workflow: Option<Workflow>, evidence: bool)

  datatype Status =
    | Raw | Archived | PendingReallocation | PendingReview | PendingDispatch | PendingScreening | ScreeningPassed | ScreeningRejected

  function Rank(r: Resume): nat {
    if r.rank.Some? then r.rank.value else 999
  }

  predicate Precedes(a: Resume, b: Resume) {
    Rank(a) < Rank(b) || (Rank(a) == Rank(b) && (a.day < b.day || (a.day == b.day && a.id < b.id)))
  }

  /** The first resume in the order of rank, application day and id. */
  function FirstResume(resumes: seq<Resume>): (r: Resume)
    requires resumes != []
    ensures r in resumes && forall x | x in resumes :: !Precedes(x, r)
  {
    var n := |resumes| - 1;
    if n == 0 then resumes[0]
    else
      var first := FirstResume(resumes[..n]);
      assert forall x | x in resumes :: x in resumes[..n] || x == resumes[n];
      if Precedes(resumes[n], first) then resumes[n] else first
  }

  /** The current resume: the one the workflow names, or the first one. */
  function CurrentResume(c: Candidate): (r: Option<nat>)
    ensures r.None? <==> c.resumes == [] && (c.workflow.None? || c.workflow.value.current.None?)
  {
    if c.workflow.Some? && c.workflow.value.current.Some? then c.workflow.value.current
    else if c.resumes == [] then None
    else Some(FirstResume(c.resumes).id)
  }

  predicate IsEffective(a: Attempt, resume: Option<nat>) {
    a.status != Cancelled && (resume.None? || a.resume == resume.value)
  }

  predicate Follows(a: Attempt, b: Attempt) {
    a.no > b.no || (a.no == b.no && a.id >= b.id)
  }

  /** The latest attempt that is not cancelled, for one resume or for any. */
  function LatestEffective(attempts: seq<Attempt>, resume: Option<nat>): (latest: Option<Attempt>)
    ensures latest.Some? <==> exists a :: a in attempts && IsEffective(a, resume)
    ensures latest.Some? ==> latest.value in attempts && IsEffective(latest.value, resume)
    ensures latest.Some? ==> forall a | a in attempts && IsEffective(a, resume) :: Follows(latest.value, a)
  {
    if attempts == [] then None
    else
      var n := |attempts| - 1;
      var before := LatestEffective(attempts[..n], resume);
      assert forall a | a in attempts :: a in attempts[..n] || a == attempts[n];
      assert attempts[n] in attempts;
      if IsEffective(attempts[n], resume) && (before.None? || Follows(attempts[n], before.value)) then Some(attempts[n]) else before
  }

  /** The attempt that a report uses: none without a workflow or a current resume. */
  function CurrentAttempt(c: Candidate): Option<Attempt> {
    if c.workflow.None? || CurrentResume(c).None? then None
    else LatestEffective(c.workflow.value.attempts, CurrentResume(c))
  }

  /** The attempt that the status uses: any attempt of the workflow counts if there is no current resume. */
  function StatusAttempt(c: Candidate): Option<Attempt> {
    if c.workflow.None? then None else LatestEffective(c.workflow.value.attempts, CurrentResume(c))
  }

  predicate HasEvidence(c: Candidate) {
    c.evidence || (c.workflow.Some? && (c.workflow.value.evidence || c.workflow.value.outOfHeadcount || c.workflow.value.attempts != []))
  }

  function StatusOf(c: Candidate): Status {
    var attempt := StatusAttempt(c);
    if attempt.Some? && attempt.value.status == Passed then ScreeningPassed
    else if attempt.Some? && attempt.value.status == Rejected then ScreeningRejected
    else if attempt.Some? && attempt.value.status == Dispatched then PendingScreening
    else if attempt.Some? && attempt.value.status == AwaitingReview then PendingReview
    else if attempt.Some? && attempt.value.status == AwaitingDispatch then PendingDispatch
    else if c.workflow.Some? && c.workflow.value.outOfHeadcount then PendingReallocation
    else if HasEvidence(c) then Archived
    else Raw
  }

  /** The statuses that speak of an attempt. */
  predicate NeedsAttempt(s: Status) {
    s == ScreeningPassed || s == ScreeningRejected || s == PendingScreening || s == PendingReview || s == PendingDispatch
  }

  function StatusFor(s: AttemptStatus): Status {
    match s
    case AwaitingDispatch => PendingDispatch
    case AwaitingReview => PendingReview
    case Dispatched => PendingScreening
    case Passed => ScreeningPassed
    case Rejected => ScreeningRejected
    case Cancelled => Archived
  }

  // ----- What the status says -----

  /** The resume that a workflow names is current; otherwise the first by rank, unranked ones as 999th, then by day,
      then by id. */
  lemma CurrentResumeIs(c: Candidate, r: Resume)
    requires r in c.resumes
    requires forall x | x in c.resumes && x != r ::
               var own, other := if r.rank.Some? then r.rank.value else 999, if x.rank.Some? then x.rank.value else 999;
               own < other || (own == other && (r.day < x.day || (r.day == x.day && r.id < x.id)))
    ensures CurrentResume(c) == if c.workflow.Some? && c.workflow.value.current.Some? then c.workflow.value.current else Some(r.id)
  {
    var first := FirstResume(c.resumes);
    assert !Precedes(r, first);
  }

  /** The attempt counts for the status: it is not cancelled, and for the current resume if there is one. */
  ghost predicate Counts(c: Candidate, a: Attempt) {
    && c.workflow.Some? && a in c.workflow.value.attempts && a.status != Cancelled
    && (CurrentResume(c).Some? ==> CurrentResume(c).value == a.resume)
  }

  /** The last of the attempts that count decides the status. */
  lemma LatestDecides(c: Candidate, a: Attempt)
    requires Counts(c, a) && forall b | Counts(c, b) && b != a :: a.no > b.no || (a.no == b.no && a.id > b.id)
    ensures StatusAttempt(c) == Some(a)
    ensures match a.status
            case AwaitingDispatch => StatusOf(c) == PendingDispatch
            case AwaitingReview => StatusOf(c) == PendingReview
            case Dispatched => StatusOf(c) == PendingScreening
            case Passed => StatusOf(c) == ScreeningPassed
            case Rejected => StatusOf(c) == ScreeningRejected
            case Cancelled => false
  {
    assert IsEffective(a, CurrentResume(c));
    var latest := StatusAttempt(c).value;
    assert Counts(c, latest) && Follows(latest, a);
  }

  /** Without one, headcount comes first, then any sign of earlier work. */
  lemma NothingToDecide(c: Candidate)
    requires forall a :: !Counts(c, a)
    ensures StatusAttempt(c).None?
    ensures StatusOf(c) == PendingReallocation <==> c.workflow.Some? && c.workflow.value.outOfHeadcount
    ensures StatusOf(c) == Raw <==>
      !c.evidence && (c.workflow.Some? ==> c.workflow.value.attempts == [] && !c.workflow.value.evidence && !c.workflow.value.outOfHeadcount)
    ensures StatusOf(c) in {PendingReallocation, Raw, Archived}
  {
    if StatusAttempt(c).Some? {
      assert Counts(c, StatusAttempt(c).value);
    }
  }

  /** Report and status look at the same attempt, except for a candidate without any resume whose workflow
      names none but has an attempt. */
  lemma AttemptsAgreeIff(c: Candidate)
    ensures CurrentAttempt(c) == StatusAttempt(c) <==>
      !(c.resumes == [] && c.workflow.Some? && c.workflow.value.current.None?
        && exists a :: a in c.workflow.value.attempts && a.status != Cancelled)
  {
    if c.workflow.Some? && CurrentResume(c).None? {
      assert forall a :: IsEffective(a, None) <==> a.status != Cancelled;
    }
  }

  /** For a candidate with a resume, the status speaks of an attempt exactly when the report finds one, and then
      it is the status of that attempt. */
  lemma StatusMirrorsAttempt(c: Candidate)
    requires c.resumes != []
    ensures CurrentAttempt(c).Some? <==> NeedsAttempt(StatusOf(c))
    ensures CurrentAttempt(c).Some? ==> StatusOf(c) == StatusFor(CurrentAttempt(c).value.status)
    ensures CurrentAttempt(c).Some? ==> CurrentAttempt(c).value.status != Cancelled
  {
    AttemptsAgreeIff(c);
  }

  /** A candidate shown as unprocessed has no attempt at all, not even a cancelled one. */
  lemma RawHasNoAttempts(c: Candidate)
    requires StatusOf(c) == Raw && c.workflow.Some?
    ensures c.workflow.value.attempts == []
  {
  }
}
