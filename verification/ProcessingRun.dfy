/** A processing run and the items of its candidates: what each operation on them does. */
module ProcessingRun {
  import opened Wrappers

  datatype ItemStatus =
    | Pending | Queued | WaitingConflict | Processing
    | Success | NeedsAttention | Failed | SkippedManualChange | Cancelled

  datatype ResultType = NoResult | CompletedResult | AttentionResult | FailedResult | CancelledResult

  /** `reported` records that the outcome of the item has been passed to record_ai_scope_outcome, or
      counted by the cancellation of unstarted items. */
  datatype Item = Item(status: ItemStatus, result: ResultType, reported: bool)

  datatype RunStatus =
    | RunPending | RunRunning | RunWaitingConflict | RunCancelling
    | RunCancelled | RunSuccess | RunNeedsAttention | RunPartialFailed | RunFailed

  /** The counters kept on a run, and again on its fourth stage. */
  datatype Counters = Counters(
    processed: int, success: int, completed: int, attention: int, failed: int, skipped: int, cancelled: int)

  datatype Run = Run(
    status: RunStatus, cancelRequested: bool, total: int, chunkDone: int, counters: Counters, stage: Counters, items: seq<Item>)

  predicate Terminal(status: ItemStatus) {
    status in {Success, NeedsAttention, Failed, SkippedManualChange, Cancelled}
  }

  predicate Unstarted(status: ItemStatus) {
    status in {Pending, Queued, WaitingConflict}
  }

  /** The run states in which outcomes are still counted. */
  predicate Counting(status: RunStatus) {
    status in {RunRunning, RunWaitingConflict, RunCancelling}
  }

  predicate Cancellable(status: RunStatus) {
    status.RunPending? || Counting(status)
  }

  function HasStatus(status: ItemStatus): Item -> bool {
    (item: Item) => item.status == status
  }

  function HasResult(result: ResultType): Item -> bool {
    (item: Item) => item.result == result
  }

  function IsTerminal(): Item -> bool {
    (item: Item) => Terminal(item.status)
  }

  function IsUnstarted(): Item -> bool {
    (item: Item) => Unstarted(item.status)
  }

  lemma {:induction false} CountIsAll(items: seq<Item>, p: Item -> bool)
    ensures CountWhere(items, p) <= |items|
    ensures CountWhere(items, p) == |items| <==> forall i | 0 <= i < |items| :: p(items[i])
  {
    if items != [] {
      CountIsAll(items[..|items| - 1], p);
    }
  }

  lemma {:induction false} CountIsPositive(items: seq<Item>, p: Item -> bool)
    ensures CountWhere(items, p) > 0 <==> exists i | 0 <= i < |items| :: p(items[i])
  {
    if items != [] {
      var n := |items| - 1;
      CountIsPositive(items[..n], p);
      if i :| 0 <= i < |items| && p(items[i]) {
        assert i < n ==> p(items[..n][i]);
      }
      if i :| 0 <= i < n && p(items[..n][i]) {
        assert p(items[i]);
      }
    }
  }

  // ----- What the operations do -----

  /** One more item with the given terminal status. */
  function Bumped(c: Counters, status: ItemStatus): Counters
    requires Terminal(status)
  {
    var d := c.(processed := c.processed + 1);
    match status
    case Success => d.(success := c.success + 1, completed := c.completed + 1)
    case NeedsAttention => d.(attention := c.attention + 1)
    case Failed => d.(failed := c.failed + 1)
    case SkippedManualChange => d.(skipped := c.skipped + 1)
    case Cancelled => d.(cancelled := c.cancelled + 1)
  }

  /** The first statement of a report: the row of the run, if it is still counting. */
  function CountedOnRun(run: Run, status: ItemStatus): Run
    requires Terminal(status)
  {
    if Counting(run.status) then run.(chunkDone := run.chunkDone + 1, counters := Bumped(run.counters, status)) else run
  }

  /** The second statement of a report: the row of the fourth stage. */
  function CountedOnStage(run: Run, status: ItemStatus): Run
    requires Terminal(status)
  {
    run.(stage := Bumped(run.stage, status))
  }

  /** A report that nothing interrupts. */
  function Recorded(run: Run, status: ItemStatus): Run
    requires Terminal(status)
  {
    if Counting(run.status) then CountedOnStage(CountedOnRun(run, status), status) else run
  }

  function CancelledItem(item: Item): Item {
    if Unstarted(item.status) then Item(Cancelled, if item.result.NoResult? then CancelledResult else item.result, true)
    else if item.status.Cancelled? && item.result.NoResult? then item.(result := CancelledResult)
    else item
  }

  function CancelledItems(items: seq<Item>): (r: seq<Item>)
    ensures |r| == |items|
  {
    if items == [] then [] else CancelledItems(items[..|items| - 1]) + [CancelledItem(items[|items| - 1])]
  }

  function PlusCancelled(c: Counters, n: nat): Counters {
    c.(processed := c.processed + n, cancelled := c.cancelled + n)
  }

  function UnstartedCancelled(run: Run): Run {
    var n := CountWhere(run.items, IsUnstarted());
    if n == 0 then run
    else run.(items := CancelledItems(run.items), chunkDone := run.chunkDone + n,
              counters := PlusCancelled(run.counters, n), stage := PlusCancelled(run.stage, n))
  }

  lemma {:induction false} CancelledElements(items: seq<Item>)
    ensures forall i | 0 <= i < |items| :: var after := CancelledItems(items)[i];
      && (items[i].status in {Pending, Queued, WaitingConflict} ==> after.status == Cancelled && after.reported)
      && (items[i].status !in {Pending, Queued, WaitingConflict} ==> after == items[i].(result := after.result))
      && (after.result != items[i].result ==> items[i].result.NoResult? && after.status == Cancelled && after.result == CancelledResult)
      && (after.status == Cancelled ==> !after.result.NoResult?)
  {
    if items != [] {
      CancelledElements(items[..|items| - 1]);
    }
  }

  lemma UnstartedSize(items: seq<Item>)
    ensures CountWhere(items, IsUnstarted()) == |set i | 0 <= i < |items| && items[i].status in {Pending, Queued, WaitingConflict}|
  {
    CountWhereIsSize(items, IsUnstarted());
    assert (set i | 0 <= i < |items| && items[i].status in {Pending, Queued, WaitingConflict})
      == PositionsWhere(items, IsUnstarted());
  }

  lemma NoneToCancel(items: seq<Item>)
    ensures CountWhere(items, IsUnstarted()) == 0 <==> forall i | 0 <= i < |items| :: !Unstarted(items[i].status)
  {
    CountIsPositive(items, IsUnstarted());
    assert forall i | 0 <= i < |items| :: IsUnstarted()(items[i]) <==> Unstarted(items[i].status);
  }

  lemma RecountedSizes(items: seq<Item>)
    ensures var c := Recounted(items);
      && c.success == c.completed == |set i | 0 <= i < |items| && items[i].result == CompletedResult|
      && c.attention == |set i | 0 <= i < |items| && items[i].result == AttentionResult|
      && c.failed == |set i | 0 <= i < |items| && items[i].status == Failed|
      && c.skipped == |set i | 0 <= i < |items| && items[i].status == SkippedManualChange|
      && c.cancelled == |set i | 0 <= i < |items| && items[i].status == Cancelled|
  {
    ResultSize(items, CompletedResult);
    ResultSize(items, AttentionResult);
    StatusSize(items, Failed);
    StatusSize(items, SkippedManualChange);
    StatusSize(items, Cancelled);
  }

  lemma ResultSize(items: seq<Item>, result: ResultType)
    ensures CountWhere(items, HasResult(result)) == |set i | 0 <= i < |items| && items[i].result == result|
  {
    CountWhereIsSize(items, HasResult(result));
    assert (set i | 0 <= i < |items| && items[i].result == result) == PositionsWhere(items, HasResult(result));
  }

  lemma StatusSize(items: seq<Item>, status: ItemStatus)
    ensures CountWhere(items, HasStatus(status)) == |set i | 0 <= i < |items| && items[i].status == status|
  {
    CountWhereIsSize(items, HasStatus(status));
    assert (set i | 0 <= i < |items| && items[i].status == status) == PositionsWhere(items, HasStatus(status));
  }

  lemma RecountedPresence(items: seq<Item>)
    ensures Recounted(items).failed != 0 <==> exists i | 0 <= i < |items| :: items[i].status == Failed
    ensures Recounted(items).attention != 0 <==> exists i | 0 <= i < |items| :: items[i].result == AttentionResult
  {
    CountIsPositive(items, HasStatus(Failed));
    CountIsPositive(items, HasResult(AttentionResult));
    assert forall i | 0 <= i < |items| :: HasStatus(Failed)(items[i]) <==> items[i].status == Failed;
    assert forall i | 0 <= i < |items| :: HasResult(AttentionResult)(items[i]) <==> items[i].result == AttentionResult;
  }

  /** The counters as recounted from the items. */
  function Recounted(items: seq<Item>): Counters {
    Counters(
      CountWhere(items, IsTerminal()),
      CountWhere(items, HasResult(CompletedResult)), CountWhere(items, HasResult(CompletedResult)),
      CountWhere(items, HasResult(AttentionResult)), CountWhere(items, HasStatus(Failed)),
      CountWhere(items, HasStatus(SkippedManualChange)), CountWhere(items, HasStatus(Cancelled)))
  }

  function FinalStatus(cancelRequested: bool, c: Counters): RunStatus {
    if cancelRequested then RunCancelled
    else if c.failed != 0 then RunPartialFailed
    else if c.attention != 0 then RunNeedsAttention
    else RunSuccess
  }

  predicate AllTerminal(items: seq<Item>) {
    CountWhere(items, IsTerminal()) >= |items|
  }

  /** The run after finalisation; the fourth stage then counts by reason codes that are not part of
      this model, so its counters are left open. */
  ghost predicate Finalised(run: Run, run': Run) {
    && AllTerminal(run.items)
    && run' == run.(total := |run.items|, chunkDone := CountWhere(run.items, IsTerminal()), counters := Recounted(run.items),
                    status := FinalStatus(run.cancelRequested, Recounted(run.items)), stage := run'.stage)
  }

  function CancelRequestedOn(run: Run): Result<Run, ()> {
    if !Cancellable(run.status) then Err(())
    else Ok(run.(cancelRequested := true, status := if run.status.RunPending? then RunCancelled else RunCancelling))
  }

  // ----- The stored run -----

  class Store {
    var run: Run

    constructor (run: Run)
      ensures this.run == run
    {
      this.run := run;
    }

    static method Increment(c: Counters, status: ItemStatus) returns (d: Counters)
      requires Terminal(status)
      ensures d == Bumped(c, status)
    {
      d := c.(processed := c.processed + 1);
      match status
      case Success => d := d.(success := d.success + 1, completed := d.completed + 1);
      case NeedsAttention => d := d.(attention := d.attention + 1);
      case Failed => d := d.(failed := d.failed + 1);
      case SkippedManualChange => d := d.(skipped := d.skipped + 1);
      case Cancelled => d := d.(cancelled := d.cancelled + 1);
    }

    /** `outcome` is what the worker reports; None stands for a report without a terminal status. */
    method RecordOutcome(alreadyTerminal: bool, outcome: Option<ItemStatus>)
      modifies this
      ensures run ==
        if !alreadyTerminal && outcome.Some? && Terminal(outcome.value) then Recorded(old(run), outcome.value) else old(run)
      ensures var n, before := if !alreadyTerminal && outcome.Some? && Terminal(outcome.value)
                                  && old(run).status in {RunRunning, RunWaitingConflict, RunCancelling} then 1 else 0, old(run);
        var inCase := (status: ItemStatus) => if outcome == Some(status) then n else 0;
        var counted := (c: Counters) => Counters(
          c.processed + n, c.success + inCase(Success), c.completed + inCase(Success), c.attention + inCase(NeedsAttention),
          c.failed + inCase(Failed), c.skipped + inCase(SkippedManualChange), c.cancelled + inCase(Cancelled));
        run == before.(chunkDone := before.chunkDone + n, counters := counted(before.counters), stage := counted(before.stage))
    {
      if alreadyTerminal {
        return;
      }
      if outcome.None? || !Terminal(outcome.value) {
        return;
      }
      var updated := Counting(run.status);
      if updated {
        var counters := Increment(run.counters, outcome.value);
        run := run.(chunkDone := run.chunkDone + 1, counters := counters);
      }
      if updated {
        var stage := Increment(run.stage, outcome.value);
        run := run.(stage := stage);
      }
    }

    method CancelUnstarted() returns (count: nat)
      modifies this
      ensures count == CountWhere(old(run).items, IsUnstarted()) && run == UnstartedCancelled(old(run))
      ensures count == |set i | 0 <= i < |old(run).items| && old(run).items[i].status in {Pending, Queued, WaitingConflict}|
      ensures |run.items| == |old(run).items| && forall i | 0 <= i < |run.items| ::
        && (old(run).items[i].status in {Pending, Queued, WaitingConflict} ==> run.items[i].status == Cancelled && run.items[i].reported)
        && (old(run).items[i].status !in {Pending, Queued, WaitingConflict} ==>
              run.items[i] == old(run).items[i].(result := run.items[i].result))
        && (run.items[i].result != old(run).items[i].result ==>
              old(run).items[i].result.NoResult? && run.items[i].status == Cancelled && run.items[i].result == CancelledResult)
        && (count > 0 && run.items[i].status == Cancelled ==> !run.items[i].result.NoResult?)
      ensures var before, n := old(run), count;
        run == before.(items := run.items, chunkDone := before.chunkDone + n,
                       counters := before.counters.(processed := before.counters.processed + n, cancelled := before.counters.cancelled + n),
                       stage := before.stage.(processed := before.stage.processed + n, cancelled := before.stage.cancelled + n))
    {
      UnstartedSize(run.items);
      CancelledElements(run.items);
      NoneToCancel(run.items);
      count := CountWhere(run.items, IsUnstarted());
      if count != 0 {
        run := run.(items := CancelledItems(run.items));
        run := run.(counters := run.counters.(processed := run.counters.processed + count, cancelled := run.counters.cancelled + count));
        run := run.(chunkDone := run.chunkDone + count);
        run := run.(stage := run.stage.(processed := run.stage.processed + count, cancelled := run.stage.cancelled + count));
      }
    }

    method FinalizeIfComplete(stage: Counters) returns (done: bool)
      modifies this
      ensures done <==> AllTerminal(old(run).items)
      ensures done ==> Finalised(old(run), run)
      ensures !done ==> run == old(run)
      ensures done <==> forall i | 0 <= i < |old(run).items| :: Terminal(old(run).items[i].status)
      ensures done ==>
        && run.items == old(run).items && run.cancelRequested == old(run).cancelRequested && run.stage == stage
        && run.total == run.chunkDone == run.counters.processed == |run.items|
        && run.counters.success == run.counters.completed == |set i | 0 <= i < |run.items| && run.items[i].result == CompletedResult|
        && run.counters.attention == |set i | 0 <= i < |run.items| && run.items[i].result == AttentionResult|
        && run.counters.failed == |set i | 0 <= i < |run.items| && run.items[i].status == Failed|
        && run.counters.skipped == |set i | 0 <= i < |run.items| && run.items[i].status == SkippedManualChange|
        && run.counters.cancelled == |set i | 0 <= i < |run.items| && run.items[i].status == Cancelled|
      ensures done ==>
        (run.status == (if old(run).cancelRequested then RunCancelled
                        else if exists i | 0 <= i < |run.items| :: run.items[i].status == Failed then RunPartialFailed
                        else if exists i | 0 <= i < |run.items| :: run.items[i].result == AttentionResult then RunNeedsAttention
                        else RunSuccess))
    {
      CountIsAll(run.items, IsTerminal());
      RecountedSizes(run.items);
      RecountedPresence(run.items);
      var total, terminal := |run.items|, CountWhere(run.items, IsTerminal());
      if terminal < total {
        return false;
      }
      var completed, attention := CountWhere(run.items, HasResult(CompletedResult)), CountWhere(run.items, HasResult(AttentionResult));
      var failed, skipped := CountWhere(run.items, HasStatus(Failed)), CountWhere(run.items, HasStatus(SkippedManualChange));
      var cancelled := CountWhere(run.items, HasStatus(Cancelled));
      run := run.(total := total, chunkDone := terminal,
                  counters := Counters(terminal, completed, completed, attention, failed, skipped, cancelled));
      if run.cancelRequested {
        run := run.(status := RunCancelled);
      } else {
        run := run.(status := if failed != 0 then RunPartialFailed else if attention != 0 then RunNeedsAttention else RunSuccess);
      }
      run := run.(stage := stage);
      return true;
    }

    method RequestCancellation() returns (accepted: bool)
      modifies this
      ensures accepted <==> Cancellable(old(run).status)
      ensures if accepted then CancelRequestedOn(old(run)) == Ok(run) else run == old(run)
      ensures accepted <==> old(run).status in {RunPending, RunRunning, RunWaitingConflict, RunCancelling}
      ensures accepted ==>
        run == old(run).(cancelRequested := true, status := if old(run).status.RunPending? then RunCancelled else RunCancelling)
    {
      if !Cancellable(run.status) {
        return false;
      }
      run := run.(cancelRequested := true);
      if run.status.RunPending? {
        run := run.(status := RunCancelled);
      } else {
        run := run.(status := RunCancelling);
      }
      return true;
    }
  }
}
