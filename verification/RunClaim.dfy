/** Workers that call execute_run, and cancel requests that meet them. */
module RunClaim {
  import opened Wrappers
  import opened ProcessingRun

  /** The two columns of the run row that the claim depends on. */
  datatype Row = Row(status: RunStatus, cancelRequested: bool)

  /** execute_run up to the claim: the worker goes on only if it found a pending run nobody cancelled. */
  function Claimed(row: Row): (Row, bool) {
    if !row.status.RunPending? || row.cancelRequested then
      (if row.status.RunCancelling? then row.(status := RunCancelled) else row, false)
    else (row.(status := RunRunning), true)
  }

  class RunRow {
    var row: Row

    constructor (row: Row)
      ensures this.row == row
    {
      this.row := row;
    }

    method Claim() returns (passed: bool)
      modifies this
      ensures (row, passed) == Claimed(old(row))
      ensures passed <==> old(row).status == RunPending && !old(row).cancelRequested
      ensures row == old(row).(status := if passed then RunRunning
                                         else if old(row).status == RunCancelling then RunCancelled else old(row).status)
    {
      if !row.status.RunPending? || row.cancelRequested {
        if row.status.RunCancelling? {
          row := row.(status := RunCancelled);
        }
        return false;
      }
      row := row.(status := RunRunning);
      return true;
    }
  }

  /** `passed` holds the workers that went past the claim; `cancelledPending` records that a cancel
      request was accepted while the run was pending. */
  datatype State = State(row: Row, passed: set<nat>, tried: set<nat>, cancelledPending: bool)

  datatype Step =
    | Claim(worker: nat)
    | RequestCancel
    | Write(worker: nat, row: Row)

  /** A worker that passed the claim may later save any row, as long as it does not make the run pending
      again; no code does. */
  ghost predicate Enabled(s: State, step: Step) {
    match step
    case Claim(worker) => worker !in s.tried
    case RequestCancel => Cancellable(s.row.status)
    case Write(worker, row) => worker in s.passed && !row.status.RunPending?
  }

  ghost function Apply(s: State, step: Step): State
    requires Enabled(s, step)
  {
    match step
    case Claim(worker) =>
      var (row, ok) := Claimed(s.row);
      State(row, if ok then s.passed + {worker} else s.passed, s.tried + {worker}, s.cancelledPending)
    case RequestCancel =>
      State(Row(if s.row.status.RunPending? then RunCancelled else RunCancelling, true), s.passed, s.tried,
            s.cancelledPending || s.row.status.RunPending?)
    case Write(_, row) => s.(row := row)
  }

  ghost predicate Follows(states: seq<State>, steps: seq<Step>, i: nat) {
    i < |steps| && |states| == |steps| + 1 && Enabled(states[i], steps[i]) && states[i + 1] == Apply(states[i], steps[i])
  }

  ghost predicate IsRun(states: seq<State>, steps: seq<Step>) {
    && |states| == |steps| + 1
    && states[0] == State(Row(RunPending, false), {}, {}, false)
    && forall i: nat | i < |steps| :: Follows(states, steps, i)
  }

  ghost predicate Inv(s: State) {
    && (s.row.status.RunPending? ==> s.passed == {} && !s.row.cancelRequested && !s.cancelledPending)
    && (forall a, b | a in s.passed && b in s.passed :: a == b)
    && (s.cancelledPending ==> s.passed == {} && s.row == Row(RunCancelled, true))
  }

  lemma {:induction false} RunInv(states: seq<State>, steps: seq<Step>, j: nat)
    requires IsRun(states, steps) && j < |states|
    ensures Inv(states[j])
  {
    if j > 0 {
      RunInv(states, steps, j - 1);
      assert Follows(states, steps, j - 1);
    }
  }

  /** A claim by anyone is decided by the row alone: a pending run that nobody asked to cancel starts, and any other
      claim fails, ending a run whose cancellation was requested. */
  lemma ClaimPassesIff(states: seq<State>, steps: seq<Step>, i: nat)
    requires IsRun(states, steps) && i < |steps| && steps[i].Claim?
    ensures var before, after, worker := states[i], states[i + 1], steps[i].worker;
      && (worker in after.passed <==> before.row == Row(RunPending, false))
      && (worker in after.passed ==> after.row == Row(RunRunning, false))
      && (worker !in after.passed ==>
            after.row == before.row.(status := if before.row.status == RunCancelling then RunCancelled else before.row.status))
  {
    assert Follows(states, steps, i);
    if steps[i].worker in states[i].passed {
      TriedBeforePassing(states, steps, i, steps[i].worker);
    }
  }

  lemma {:induction false} TriedBeforePassing(states: seq<State>, steps: seq<Step>, j: nat, worker: nat)
    requires IsRun(states, steps) && j < |states| && worker in states[j].passed
    ensures worker in states[j].tried
  {
    assert Follows(states, steps, j - 1);
    if worker in states[j - 1].passed {
      TriedBeforePassing(states, steps, j - 1, worker);
    }
  }

  /** At most one worker passes the claim, in any interleaving of any number of workers and requests. */
  lemma OneWorkerPasses(states: seq<State>, steps: seq<Step>, j: nat, a: nat, b: nat)
    requires IsRun(states, steps) && j < |states| && a in states[j].passed && b in states[j].passed
    ensures a == b
  {
    RunInv(states, steps, j);
  }

  /** A run cancelled while pending is never started: it stays cancelled and no worker ever passes. */
  lemma CancelledPendingNeverStarts(states: seq<State>, steps: seq<Step>, i: nat, j: nat)
    requires IsRun(states, steps) && i < j < |states|
    requires steps[i].RequestCancel? && states[i].row.status.RunPending?
    ensures states[j].passed == {} && states[j].row == Row(RunCancelled, true)
  {
    CancelIsRemembered(states, steps, i, j);
    RunInv(states, steps, j);
  }

  lemma {:induction false} CancelIsRemembered(states: seq<State>, steps: seq<Step>, i: nat, j: nat)
    requires IsRun(states, steps) && i < j < |states|
    requires steps[i].RequestCancel? && states[i].row.status.RunPending?
    ensures states[j].cancelledPending
  {
    assert Follows(states, steps, j - 1);
    if i + 1 < j {
      CancelIsRemembered(states, steps, i, j - 1);
    }
  }

  // ----- Preparing the fourth stage -----

  /** The worker that claimed the run keeps a copy of the row; preparing the fourth stage first asks the
      database for a cancel request and later saves the whole copy. */
  datatype Phase = Unchecked | Passed | Stopped | Prepared

  datatype Preparation = Preparation(row: Row, copy: Row, phase: Phase)

  datatype PrepStep = Request | Check | SaveAll

  ghost predicate PrepEnabled(s: Preparation, step: PrepStep) {
    match step
    case Request => Cancellable(s.row.status)
    case Check => s.phase.Unchecked?
    case SaveAll => s.phase.Passed?
  }

  function IsCancelRequested(row: Row): bool {
    row.status.RunCancelling? || row.status.RunCancelled? || row.cancelRequested
  }

  ghost function PrepApply(s: Preparation, step: PrepStep): Preparation
    requires PrepEnabled(s, step)
  {
    match step
    case Request => s.(row := Row(if s.row.status.RunPending? then RunCancelled else RunCancelling, true))
    case Check => if IsCancelRequested(s.row) then s.(phase := Stopped) else s.(phase := Passed)
    case SaveAll => s.(row := s.copy, phase := Prepared)
  }

  ghost predicate PrepFollows(states: seq<Preparation>, steps: seq<PrepStep>, i: nat) {
    i < |steps| && |states| == |steps| + 1 && PrepEnabled(states[i], steps[i]) && states[i + 1] == PrepApply(states[i], steps[i])
  }

  ghost predicate IsPreparation(states: seq<Preparation>, steps: seq<PrepStep>) {
    && |states| == |steps| + 1
    && states[0] == Preparation(Row(RunRunning, false), Row(RunRunning, false), Unchecked)
    && forall i: nat | i < |steps| :: PrepFollows(states, steps, i)
  }

  /** Some step from a up to b is an accepted cancel request. */
  ghost predicate RequestedBetween(steps: seq<PrepStep>, a: nat, b: nat) {
    exists i: nat | a <= i < b :: i < |steps| && steps[i].Request?
  }

  lemma {:induction false} PrepInv(states: seq<Preparation>, steps: seq<PrepStep>, j: nat)
    requires IsPreparation(states, steps) && j < |states|
    ensures states[j].copy == Row(RunRunning, false)
    ensures states[j].phase.Unchecked? ==>
      states[j].row == (if RequestedBetween(steps, 0, j) then Row(RunCancelling, true) else Row(RunRunning, false))
    ensures states[j].phase.Stopped? ==> states[j].row == Row(RunCancelling, true)
    ensures states[j].phase.Passed? || states[j].phase.Prepared? ==>
      states[j].row in {Row(RunRunning, false), Row(RunCancelling, true)}
  {
    if j > 0 {
      PrepInv(states, steps, j - 1);
      assert PrepFollows(states, steps, j - 1);
      assert RequestedBetween(steps, 0, j) <==> RequestedBetween(steps, 0, j - 1) || steps[j - 1].Request?;
    }
  }

  lemma {:induction false} SinceCheck(states: seq<Preparation>, steps: seq<PrepStep>, c: nat, j: nat)
    requires IsPreparation(states, steps) && c < j < |states| && steps[c].Check? && !IsCancelRequested(states[c].row)
    requires forall i | c < i < j :: !steps[i].SaveAll?
    ensures states[j].phase.Passed?
    ensures states[j].row == (if RequestedBetween(steps, c + 1, j) then Row(RunCancelling, true) else Row(RunRunning, false))
  {
    assert PrepFollows(states, steps, j - 1);
    if c + 1 < j {
      SinceCheck(states, steps, c, j - 1);
      assert RequestedBetween(steps, c + 1, j) <==> RequestedBetween(steps, c + 1, j - 1) || steps[j - 1].Request?;
    } else {
      PrepInv(states, steps, c);
    }
  }

  /** The full save of a prepared stage erases an accepted cancel request exactly when one was accepted
      since the check: the row had asked for cancellation, and afterwards it is running and unasked. */
  lemma SaveErasesCancelIff(states: seq<Preparation>, steps: seq<PrepStep>, c: nat, j: nat)
    requires IsPreparation(states, steps) && c < j < |steps| && steps[c].Check? && steps[j].SaveAll?
    requires !IsCancelRequested(states[c].row) && forall i | c < i < j :: !steps[i].SaveAll?
    ensures states[j + 1].row == Row(RunRunning, false)
    ensures IsCancelRequested(states[j].row) <==> RequestedBetween(steps, c + 1, j)
  {
    SinceCheck(states, steps, c, j);
    PrepInv(states, steps, j);
    assert PrepFollows(states, steps, j);
  }

  /** A request accepted before the check is never lost: the worker stops and the request stays. */
  lemma EarlyRequestStopsWorker(states: seq<Preparation>, steps: seq<PrepStep>, c: nat)
    requires IsPreparation(states, steps) && c < |steps| && steps[c].Check? && RequestedBetween(steps, 0, c)
    ensures states[c + 1].phase.Stopped? && states[c + 1].row == Row(RunCancelling, true)
  {
    PrepInv(states, steps, c);
    assert PrepFollows(states, steps, c);
  }

  /** Three steps that lose an accepted request. */
  lemma CancelRequestCanBeLost() returns (states: seq<Preparation>, steps: seq<PrepStep>)
    ensures IsPreparation(states, steps) && steps == [Check, Request, SaveAll]
    ensures IsCancelRequested(states[2].row) && !IsCancelRequested(states[3].row)
  {
    var running, asked := Row(RunRunning, false), Row(RunCancelling, true);
    steps := [Check, Request, SaveAll];
    states := [Preparation(running, running, Unchecked), Preparation(running, running, Passed),
               Preparation(asked, running, Passed), Preparation(running, running, Prepared)];
    assert PrepFollows(states, steps, 0) && PrepFollows(states, steps, 1) && PrepFollows(states, steps, 2);
  }
}
