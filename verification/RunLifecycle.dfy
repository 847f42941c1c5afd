/** The life of a prepared run: workers, cancellation and finalisation in any interleaving. */
module RunLifecycle {
  import opened Wrappers
  import opened ProcessingRun

  // ----- Counting -----

  lemma {:induction false} CountUpdate(items: seq<Item>, i: nat, item: Item, p: Item -> bool)
    requires i < |items|
    ensures CountWhere(items[i := item], p) == CountWhere(items, p) - (if p(items[i]) then 1 else 0) + (if p(item) then 1 else 0)
  {
    var n := |items| - 1;
    if i == n {
      assert items[i := item][..n] == items[..n];
    } else {
      CountUpdate(items[..n], i, item, p);
      assert items[i := item][..n] == items[..n][i := item];
    }
  }

  function ReportedAs(status: ItemStatus): Item -> bool {
    (item: Item) => item.reported && item.status == status
  }

  // ----- The invariant of a run that is still counting -----

  /** The five outcome counters and their sums. */
  ghost predicate Tallied(c: Counters, items: seq<Item>) {
    && c.success == c.completed == CountWhere(items, ReportedAs(Success))
    && c.attention == CountWhere(items, ReportedAs(NeedsAttention))
    && c.failed == CountWhere(items, ReportedAs(Failed))
    && c.skipped == CountWhere(items, ReportedAs(SkippedManualChange))
    && c.cancelled == CountWhere(items, ReportedAs(Cancelled))
    && c.processed == c.success + c.attention + c.failed + c.skipped + c.cancelled
  }

  /** How the code pairs a terminal status with a result type: a success without a result type is what
      the shortcut for finished workflows leaves behind. */
  predicate Paired(item: Item) {
    match item.status
    case Success => item.result.CompletedResult? || item.result.NoResult?
    case NeedsAttention => item.result.AttentionResult?
    case Failed => item.result.FailedResult?
    case SkippedManualChange => item.result.NoResult?
    case Cancelled => item.result.CancelledResult?
    case _ => item.result.NoResult? && !item.reported
  }

  function Minus(a: Counters, b: Counters): Counters {
    Counters(a.processed - b.processed, a.success - b.success, a.completed - b.completed, a.attention - b.attention,
             a.failed - b.failed, a.skipped - b.skipped, a.cancelled - b.cancelled)
  }

  ghost predicate AllPaired(items: seq<Item>) {
    forall i | 0 <= i < |items| :: Paired(items[i])
  }

  /** A run, and the reports that its row has counted but its fourth stage has not: a worker updates the two
      rows in separate statements. */
  datatype State = State(run: Run, underway: multiset<ItemStatus>)

  ghost predicate OutcomesOnly(underway: multiset<ItemStatus>) {
    forall status | status in underway :: Terminal(status)
  }

  /** The fourth stage and the reports still underway make up what the run has counted since `base`. */
  ghost predicate StageLags(c: Counters, base: Counters, stage: Counters, underway: multiset<ItemStatus>) {
    && stage.processed + underway[Success] + underway[NeedsAttention] + underway[Failed] + underway[SkippedManualChange]
       + underway[Cancelled] == c.processed - base.processed
    && stage.success + underway[Success] == c.success - base.success
    && stage.completed + underway[Success] == c.completed - base.completed
    && stage.attention + underway[NeedsAttention] == c.attention - base.attention
    && stage.failed + underway[Failed] == c.failed - base.failed
    && stage.skipped + underway[SkippedManualChange] == c.skipped - base.skipped
    && stage.cancelled + underway[Cancelled] == c.cancelled - base.cancelled
  }

  ghost predicate RunInv(run: Run) {
    && Counting(run.status)
    && AllPaired(run.items)
    && Tallied(run.counters, run.items)
    && run.chunkDone == run.counters.processed
  }

  /** `base` holds the counters of the run when its fourth stage was prepared. */
  ghost predicate CountingInv(s: State, base: Counters) {
    RunInv(s.run) && OutcomesOnly(s.underway) && StageLags(s.run.counters, base, s.run.stage, s.underway)
  }

  ghost predicate FinishedInv(s: State) {
    FinalInv(s.run) && OutcomesOnly(s.underway)
  }

  ghost predicate FinalInv(run: Run) {
    && AllTerminal(run.items) && AllPaired(run.items)
    && run.total == run.chunkDone == run.counters.processed == |run.items|
    && run.counters == Recounted(run.items)
    && run.status == FinalStatus(run.cancelRequested, run.counters)
  }

  // ----- Steps -----

  /** Report is the update of the run, ReportStage the update of the fourth stage that follows it. */
  datatype Step =
    | Move(i: nat, to: ItemStatus)
    | Finish(i: nat, status: ItemStatus, result: ResultType)
    | Report(i: nat)
    | ReportStage(status: ItemStatus)
    | CancelUnstarted
    | Finalise(stage: Counters)
    | RequestCancel

  ghost predicate Enabled(s: State, step: Step) {
    match step
    case Move(i, to) => i < |s.run.items| && !Terminal(s.run.items[i].status) && !Terminal(to)
    case Finish(i, status, result) =>
      i < |s.run.items| && !Terminal(s.run.items[i].status) && Terminal(status) && Paired(Item(status, result, false))
    case Report(i) => i < |s.run.items| && Terminal(s.run.items[i].status) && !s.run.items[i].reported
    case ReportStage(status) => Terminal(status) && status in s.underway
    case _ => true
  }

  function WithItem(run: Run, i: nat, item: Item): Run
    requires i < |run.items|
  {
    run.(items := run.items[i := item])
  }

  /** The row of the run counts the item and leaves the fourth stage to be updated, if the run is still counting. */
  ghost function Reported(s: State, i: nat): State
    requires i < |s.run.items| && Terminal(s.run.items[i].status)
  {
    var status := s.run.items[i].status;
    State(CountedOnRun(WithItem(s.run, i, s.run.items[i].(reported := true)), status),
          if Counting(s.run.status) then s.underway + multiset{status} else s.underway)
  }

  ghost function Closed(run: Run, stage: Counters): Run {
    if AllTerminal(run.items) then
      run.(total := |run.items|, chunkDone := CountWhere(run.items, IsTerminal()), counters := Recounted(run.items),
           status := FinalStatus(run.cancelRequested, Recounted(run.items)), stage := stage)
    else run
  }

  ghost function Apply(s: State, step: Step): State
    requires Enabled(s, step)
  {
    match step
    case Move(i, to) => s.(run := WithItem(s.run, i, s.run.items[i].(status := to)))
    case Finish(i, status, result) => s.(run := WithItem(s.run, i, Item(status, result, false)))
    case Report(i) => Reported(s, i)
    case ReportStage(status) => State(CountedOnStage(s.run, status), s.underway - multiset{status})
    case CancelUnstarted => s.(run := UnstartedCancelled(s.run))
    case Finalise(stage) => s.(run := Closed(s.run, stage))
    case RequestCancel => s.(run := match CancelRequestedOn(s.run) case Ok(r) => r case Err(_) => s.run)
  }

  // ----- Steps of a run that is still counting -----

  lemma ItemChangeKeepsTally(items: seq<Item>, i: nat, item: Item, c: Counters)
    requires i < |items| && Tallied(c, items) && !items[i].reported && !item.reported
    ensures Tallied(c, items[i := item])
  {
    CountUpdate(items, i, item, ReportedAs(Success));
    CountUpdate(items, i, item, ReportedAs(NeedsAttention));
    CountUpdate(items, i, item, ReportedAs(Failed));
    CountUpdate(items, i, item, ReportedAs(SkippedManualChange));
    CountUpdate(items, i, item, ReportedAs(Cancelled));
  }

  lemma ReportTallies(items: seq<Item>, i: nat, c: Counters)
    requires i < |items| && Tallied(c, items) && !items[i].reported && Terminal(items[i].status)
    ensures Tallied(Bumped(c, items[i].status), items[i := items[i].(reported := true)])
  {
    var item := items[i].(reported := true);
    CountUpdate(items, i, item, ReportedAs(Success));
    CountUpdate(items, i, item, ReportedAs(NeedsAttention));
    CountUpdate(items, i, item, ReportedAs(Failed));
    CountUpdate(items, i, item, ReportedAs(SkippedManualChange));
    CountUpdate(items, i, item, ReportedAs(Cancelled));
  }

  lemma {:induction false} CancelledArePaired(items: seq<Item>)
    requires AllPaired(items)
    ensures AllPaired(CancelledItems(items))
  {
    if items != [] {
      CancelledArePaired(items[..|items| - 1]);
    }
  }

  lemma CancelOne(item: Item, status: ItemStatus)
    requires Paired(item) && Terminal(status)
    ensures ReportedAs(status)(CancelledItem(item)) <==>
      ReportedAs(status)(item) || (status.Cancelled? && IsUnstarted()(item))
    ensures !(ReportedAs(status)(item) && IsUnstarted()(item))
  {
  }

  /** Cancelling the unstarted items moves exactly these to the reported cancellations. */
  lemma {:induction false} CancelCounts(items: seq<Item>, status: ItemStatus)
    requires AllPaired(items) && Terminal(status)
    ensures CountWhere(CancelledItems(items), ReportedAs(status)) ==
            CountWhere(items, ReportedAs(status)) + if status.Cancelled? then CountWhere(items, IsUnstarted()) else 0
  {
    if items != [] {
      var n := |items| - 1;
      CancelCounts(items[..n], status);
      CancelOne(items[n], status);
      assert CancelledItems(items)[..n] == CancelledItems(items[..n]);
    }
  }

  lemma CancelTallies(items: seq<Item>, c: Counters)
    requires AllPaired(items) && Tallied(c, items)
    ensures AllPaired(CancelledItems(items)) && Tallied(PlusCancelled(c, CountWhere(items, IsUnstarted())), CancelledItems(items))
  {
    CancelledArePaired(items);
    CancelCounts(items, Success);
    CancelCounts(items, NeedsAttention);
    CancelCounts(items, Failed);
    CancelCounts(items, SkippedManualChange);
    CancelCounts(items, Cancelled);
  }

  lemma ReportLags(c: Counters, base: Counters, stage: Counters, underway: multiset<ItemStatus>, status: ItemStatus)
    requires Terminal(status) && StageLags(c, base, stage, underway)
    ensures StageLags(Bumped(c, status), base, stage, underway + multiset{status})
  {
  }

  lemma StageCatchesUp(c: Counters, base: Counters, stage: Counters, underway: multiset<ItemStatus>, status: ItemStatus)
    requires Terminal(status) && status in underway && StageLags(c, base, stage, underway)
    ensures StageLags(c, base, Bumped(stage, status), underway - multiset{status})
  {
  }

  lemma ReportRun(run: Run, i: nat)
    requires RunInv(run) && i < |run.items| && Terminal(run.items[i].status) && !run.items[i].reported
    ensures RunInv(CountedOnRun(WithItem(run, i, run.items[i].(reported := true)), run.items[i].status))
  {
    assert Paired(run.items[i]);
    ReportTallies(run.items, i, run.counters);
  }

  lemma ReportStep(s: State, base: Counters, i: nat)
    requires CountingInv(s, base) && Enabled(s, Report(i))
    ensures CountingInv(Reported(s, i), base)
  {
    ReportRun(s.run, i);
    ReportLags(s.run.counters, base, s.run.stage, s.underway, s.run.items[i].status);
  }

  lemma ItemStep(run: Run, i: nat, item: Item)
    requires RunInv(run) && i < |run.items| && !Terminal(run.items[i].status)
    requires Paired(item) && !item.reported
    ensures RunInv(WithItem(run, i, item))
  {
    assert Paired(run.items[i]);
    ItemChangeKeepsTally(run.items, i, item, run.counters);
  }

  lemma CancelStep(s: State, base: Counters)
    requires CountingInv(s, base)
    ensures CountingInv(s.(run := UnstartedCancelled(s.run)), base)
  {
    CancelTallies(s.run.items, s.run.counters);
  }

  lemma StageStep(s: State, base: Counters, status: ItemStatus)
    requires CountingInv(s, base) && Enabled(s, ReportStage(status))
    ensures CountingInv(Apply(s, ReportStage(status)), base)
  {
    StageCatchesUp(s.run.counters, base, s.run.stage, s.underway, status);
  }

  lemma CloseStep(run: Run, stage: Counters)
    requires RunInv(run) && AllTerminal(run.items)
    ensures FinalInv(Closed(run, stage))
  {
    CountIsAll(run.items, IsTerminal());
  }

  lemma CountingStep(s: State, base: Counters, step: Step)
    requires CountingInv(s, base) && Enabled(s, step)
    ensures if step.Finalise? && AllTerminal(s.run.items) then FinishedInv(Apply(s, step)) else CountingInv(Apply(s, step), base)
  {
    match step
    case Move(i, to) =>
      assert Paired(s.run.items[i]);
      ItemStep(s.run, i, s.run.items[i].(status := to));
    case Finish(i, status, result) => ItemStep(s.run, i, Item(status, result, false));
    case Report(i) => ReportStep(s, base, i);
    case ReportStage(status) => StageStep(s, base, status);
    case CancelUnstarted => CancelStep(s, base);
    case Finalise(stage) =>
      if AllTerminal(s.run.items) {
        CloseStep(s.run, stage);
      }
    case RequestCancel =>
  }

  // ----- Steps after finalisation -----

  lemma ReportKeepsRecount(items: seq<Item>, i: nat)
    requires i < |items|
    ensures Recounted(items[i := items[i].(reported := true)]) == Recounted(items)
    ensures CountWhere(items[i := items[i].(reported := true)], IsTerminal()) == CountWhere(items, IsTerminal())
  {
    var item := items[i].(reported := true);
    CountUpdate(items, i, item, IsTerminal());
    CountUpdate(items, i, item, HasResult(CompletedResult));
    CountUpdate(items, i, item, HasResult(AttentionResult));
    CountUpdate(items, i, item, HasStatus(Failed));
    CountUpdate(items, i, item, HasStatus(SkippedManualChange));
    CountUpdate(items, i, item, HasStatus(Cancelled));
  }

  lemma {:induction false} NoneUnstarted(items: seq<Item>)
    requires forall i | 0 <= i < |items| :: Terminal(items[i].status)
    ensures CountWhere(items, IsUnstarted()) == 0
  {
    if items != [] {
      NoneUnstarted(items[..|items| - 1]);
    }
  }

  /** Only the report flags of items and the counters of the fourth stage may differ. */
  ghost predicate SameResult(run: Run, run': Run) {
    && run'.status == run.status && run'.cancelRequested == run.cancelRequested && run'.total == run.total
    && run'.chunkDone == run.chunkDone && run'.counters == run.counters && |run'.items| == |run.items|
    && forall i | 0 <= i < |run.items| :: SameOutcome(run.items[i], run'.items[i])
  }

  predicate SameOutcome(item: Item, item': Item) {
    item'.status == item.status && item'.result == item.result
  }

  lemma SameResultTransitive(a: Run, b: Run, c: Run)
    requires SameResult(a, b) && SameResult(b, c)
    ensures SameResult(a, c)
  {
    forall i | 0 <= i < |a.items| ensures SameOutcome(a.items[i], c.items[i]) {
      assert SameOutcome(a.items[i], b.items[i]) && SameOutcome(b.items[i], c.items[i]);
    }
  }

  lemma FinalReport(run: Run, i: nat)
    requires FinalInv(run) && i < |run.items| && Terminal(run.items[i].status)
    ensures var run' := WithItem(run, i, run.items[i].(reported := true)); FinalInv(run') && SameResult(run, run')
  {
    assert Paired(run.items[i]);
    ReportKeepsRecount(run.items, i);
  }

  lemma FinalCancel(run: Run)
    requires FinalInv(run)
    ensures UnstartedCancelled(run) == run
  {
    CountIsAll(run.items, IsTerminal());
    NoneUnstarted(run.items);
  }

  lemma FinalClose(run: Run, stage: Counters)
    requires FinalInv(run)
    ensures FinalInv(Closed(run, stage)) && SameResult(run, Closed(run, stage))
  {
    CountIsAll(run.items, IsTerminal());
  }

  lemma FinalStage(run: Run, status: ItemStatus)
    requires FinalInv(run) && Terminal(status)
    ensures FinalInv(CountedOnStage(run, status)) && SameResult(run, CountedOnStage(run, status))
  {
  }

  lemma FinalItems(run: Run, i: nat)
    requires FinalInv(run) && i < |run.items|
    ensures Terminal(run.items[i].status) && !Counting(run.status) && CancelRequestedOn(run).Err?
  {
    CountIsAll(run.items, IsTerminal());
  }

  lemma FinalRequest(run: Run)
    requires FinalInv(run)
    ensures CancelRequestedOn(run).Err? && SameResult(run, run)
  {
  }

  /** Nothing that happens after finalisation changes the status, the outcome counters or an outcome. */
  lemma FinalStep(s: State, step: Step)
    requires FinishedInv(s) && Enabled(s, step)
    ensures FinishedInv(Apply(s, step)) && SameResult(s.run, Apply(s, step).run)
  {
    match step
    case Move(i, _) => FinalItems(s.run, i);
    case Finish(i, _, _) => FinalItems(s.run, i);
    case Report(i) =>
      FinalItems(s.run, i);
      FinalReport(s.run, i);
    case ReportStage(status) => FinalStage(s.run, status);
    case CancelUnstarted =>
      FinalCancel(s.run);
      FinalRequest(s.run);
    case Finalise(stage) => FinalClose(s.run, stage);
    case RequestCancel => FinalRequest(s.run);
  }

  // ----- Whole runs -----

  ghost predicate Follows(states: seq<State>, steps: seq<Step>, i: nat) {
    i < |steps| && |states| == |steps| + 1 && Enabled(states[i], steps[i]) && states[i + 1] == Apply(states[i], steps[i])
  }

  lemma FinalNext(states: seq<State>, steps: seq<Step>, i: nat)
    requires Follows(states, steps, i) && FinishedInv(states[i])
    ensures FinishedInv(states[i + 1]) && SameResult(states[i].run, states[i + 1].run)
  {
    FinalStep(states[i], steps[i]);
  }

  /** A run whose fourth stage has been prepared, with counters that match its items. */
  ghost predicate IsRun(states: seq<State>, steps: seq<Step>) {
    && |states| == |steps| + 1
    && CountingInv(states[0], states[0].run.counters)
    && states[0].underway == multiset{}
    && forall i: nat | i < |steps| :: Follows(states, steps, i)
  }

  /** Step i was a successful finalisation. */
  ghost predicate FinalisedAt(states: seq<State>, steps: seq<Step>, i: nat) {
    i < |steps| && i < |states| && steps[i].Finalise? && AllTerminal(states[i].run.items)
  }

  /** One of the first j steps was a successful finalisation. */
  ghost predicate Ended(states: seq<State>, steps: seq<Step>, j: nat) {
    j > 0 && (FinalisedAt(states, steps, j - 1) || Ended(states, steps, j - 1))
  }

  lemma {:induction false} Reached(states: seq<State>, steps: seq<Step>, j: nat)
    requires IsRun(states, steps) && j < |states|
    ensures if Ended(states, steps, j) then FinishedInv(states[j]) else CountingInv(states[j], states[0].run.counters)
  {
    if j > 0 {
      Reached(states, steps, j - 1);
      assert Follows(states, steps, j - 1);
      if Ended(states, steps, j - 1) {
        FinalStep(states[j - 1], steps[j - 1]);
      } else {
        CountingStep(states[j - 1], states[0].run.counters, steps[j - 1]);
      }
    }
  }

  lemma {:induction false} CountSplits(items: seq<Item>)
    requires AllPaired(items)
    ensures CountWhere(items, (item: Item) => item.reported) ==
      CountWhere(items, ReportedAs(Success)) + CountWhere(items, ReportedAs(NeedsAttention)) + CountWhere(items, ReportedAs(Failed))
      + CountWhere(items, ReportedAs(SkippedManualChange)) + CountWhere(items, ReportedAs(Cancelled))
  {
    if items != [] {
      var n := |items| - 1;
      CountSplits(items[..n]);
      assert Paired(items[n]);
    }
  }

  /** Until finalisation the processed counter, the chunk counter and the sum of the five outcome
      counters all equal the number of items whose outcome has been recorded. */
  lemma CountersAgree(states: seq<State>, steps: seq<Step>, j: nat)
    requires IsRun(states, steps) && j < |states| && !Ended(states, steps, j)
    ensures var run, c := states[j].run, states[j].run.counters;
      && c.processed == run.chunkDone == c.success + c.attention + c.failed + c.skipped + c.cancelled
      && c.processed == CountWhere(run.items, (item: Item) => item.reported) <= |run.items|
  {
    Reached(states, steps, j);
    CountSplits(states[j].run.items);
    CountIsAll(states[j].run.items, (item: Item) => item.reported);
  }

  /** Until finalisation the fourth stage lags behind the run by exactly the reports whose second update is
      still to come; when there is none, it has counted exactly what was recorded since it was prepared. */
  lemma StageFollowsRun(states: seq<State>, steps: seq<Step>, j: nat)
    requires IsRun(states, steps) && j < |states| && !Ended(states, steps, j)
    ensures var s, base := states[j], states[0].run.counters;
      && StageLags(s.run.counters, base, s.run.stage, s.underway)
      && (s.run.stage == Minus(s.run.counters, base) <==> s.underway == multiset{})
  {
    Reached(states, steps, j);
    var underway := states[j].underway;
    if states[j].run.stage == Minus(states[j].run.counters, states[0].run.counters) {
      assert forall status | status in underway :: Terminal(status) && underway[status] == 0;
    }
  }

  /** A success that the shortcut for finished workflows left without a result type. */
  function IsShortcut(): Item -> bool {
    (item: Item) => item.status.Success? && item.result.NoResult?
  }

  lemma {:induction false} RecountSplits(items: seq<Item>)
    requires AllPaired(items)
    ensures var c := Recounted(items);
      c.processed == c.success + c.attention + c.failed + c.skipped + c.cancelled + CountWhere(items, IsShortcut())
  {
    if items != [] {
      var n := |items| - 1;
      RecountSplits(items[..n]);
      assert Paired(items[n]);
    }
  }

  /** Finalisation succeeds exactly when every item is terminal.  It then ends as cancelled exactly when
      a cancel request is recorded, counts every item as processed, and its five outcome counters sum up
      to the total exactly when no item was finished by the shortcut. */
  lemma FinalisationResult(states: seq<State>, steps: seq<Step>, i: nat)
    requires IsRun(states, steps) && i < |steps| && steps[i].Finalise?
    requires !Ended(states, steps, i)
    ensures FinalisedAt(states, steps, i) <==> forall k | 0 <= k < |states[i].run.items| :: Terminal(states[i].run.items[k].status)
    ensures FinalisedAt(states, steps, i) ==>
      var run, c := states[i + 1].run, states[i + 1].run.counters;
      && (run.status == RunCancelled <==> states[i].run.cancelRequested)
      && run.total == run.chunkDone == c.processed == |run.items|
      && (c.success + c.attention + c.failed + c.skipped + c.cancelled == run.total
          <==> forall k | 0 <= k < |run.items| :: !IsShortcut()(run.items[k]))
  {
    Reached(states, steps, i);
    CountIsAll(states[i].run.items, IsTerminal());
    assert Follows(states, steps, i);
    if FinalisedAt(states, steps, i) {
      CountingStep(states[i], states[0].run.counters, steps[i]);
      RecountSplits(states[i].run.items);
      CountIsPositive(states[i].run.items, IsShortcut());
    }
  }

  // ----- Cancel requests -----

  /** One of the first j steps is a cancel request. */
  ghost predicate Requested(steps: seq<Step>, j: nat) {
    exists i: nat | i < j :: i < |steps| && steps[i].RequestCancel?
  }

  lemma RequestedNext(steps: seq<Step>, j: nat)
    requires j < |steps|
    ensures Requested(steps, j + 1) <==> Requested(steps, j) || steps[j].RequestCancel?
  {
    if Requested(steps, j) {
      var i: nat :| i < j && i < |steps| && steps[i].RequestCancel?;
      assert i < j + 1;
    }
  }

  lemma RequestStep(s: State, base: Counters, step: Step)
    requires CountingInv(s, base) && Enabled(s, step)
    ensures Apply(s, step).run.cancelRequested <==> s.run.cancelRequested || step.RequestCancel?
  {
  }

  /** Until finalisation, the run carries the flag exactly if it did at the start or a request was made since. */
  lemma {:induction false} FlagFollowsRequests(states: seq<State>, steps: seq<Step>, j: nat)
    requires IsRun(states, steps) && j < |states| && !Ended(states, steps, j)
    ensures states[j].run.cancelRequested <==> states[0].run.cancelRequested || Requested(steps, j)
  {
    if j > 0 {
      FlagFollowsRequests(states, steps, j - 1);
      Reached(states, steps, j - 1);
      assert Follows(states, steps, j - 1);
      RequestStep(states[j - 1], states[0].run.counters, steps[j - 1]);
      RequestedNext(steps, j - 1);
    }
  }

  /** Every request made before finalisation is accepted, and the run then ends as cancelled, whatever its items
      came to; without a request it never does. */
  lemma CancelledIffRequested(states: seq<State>, steps: seq<Step>, i: nat)
    requires IsRun(states, steps) && FinalisedAt(states, steps, i) && !Ended(states, steps, i)
    ensures states[i + 1].run.status == RunCancelled <==>
      states[0].run.cancelRequested || exists k: nat | k < i :: steps[k].RequestCancel?
  {
    FlagFollowsRequests(states, steps, i);
    Reached(states, steps, i);
    assert Follows(states, steps, i);
    if Requested(steps, i) {
      var k: nat :| k < i && k < |steps| && steps[k].RequestCancel?;
      assert steps[k].RequestCancel?;
    }
  }

  /** A finished run that was not cancelled shows what its items came to. */
  lemma FinalStatusFollowsItems(states: seq<State>, steps: seq<Step>, i: nat)
    requires IsRun(states, steps) && FinalisedAt(states, steps, i) && !Ended(states, steps, i)
    ensures var run := states[i + 1].run;
      && run.items == states[i].run.items
      && (run.status == RunPartialFailed <==> !run.cancelRequested && exists k | 0 <= k < |run.items| :: run.items[k].status == Failed)
      && (run.status == RunNeedsAttention <==>
            && !run.cancelRequested && (forall k | 0 <= k < |run.items| :: run.items[k].status != Failed)
            && exists k | 0 <= k < |run.items| :: run.items[k].status == NeedsAttention)
      && (run.status == RunSuccess <==>
            !run.cancelRequested && forall k | 0 <= k < |run.items| :: run.items[k].status !in {Failed, NeedsAttention})
  {
    Reached(states, steps, i);
    assert Follows(states, steps, i);
    var items := states[i].run.items;
    RecountedPresence(items);
    forall k | 0 <= k < |items| ensures items[k].result == AttentionResult <==> items[k].status == NeedsAttention {
      assert Paired(items[k]);
    }
  }

  lemma {:induction false} RecountMatchesReports(items: seq<Item>)
    requires AllPaired(items) && forall i | 0 <= i < |items| :: items[i].reported && !IsShortcut()(items[i])
    ensures Tallied(Recounted(items), items)
  {
    if items != [] {
      var n := |items| - 1;
      RecountMatchesReports(items[..n]);
      assert Paired(items[n]);
    }
  }

  /** When every outcome has been recorded and no shortcut was taken, recounting confirms the counters
      that the workers had accumulated. */
  lemma RecountConfirmsCounters(states: seq<State>, steps: seq<Step>, i: nat)
    requires IsRun(states, steps) && i < |steps| && FinalisedAt(states, steps, i)
    requires !Ended(states, steps, i)
    requires forall k | 0 <= k < |states[i].run.items| :: states[i].run.items[k].reported && !IsShortcut()(states[i].run.items[k])
    ensures states[i + 1].run.counters == states[i].run.counters
  {
    Reached(states, steps, i);
    assert Follows(states, steps, i);
    RecountMatchesReports(states[i].run.items);
  }

  lemma {:induction false} EndedStays(states: seq<State>, steps: seq<Step>, i: nat, j: nat)
    requires i < j <= |steps| && |states| == |steps| + 1 && FinalisedAt(states, steps, i)
    ensures Ended(states, steps, j)
  {
    if i + 1 < j {
      EndedStays(states, steps, i, j - 1);
    }
  }

  /** After a successful finalisation no step changes the status, the totals, the outcome counters or the
      outcome of an item. */
  lemma {:induction false} FinalIsStable(states: seq<State>, steps: seq<Step>, i: nat, j: nat)
    requires IsRun(states, steps) && i < j < |states| && FinalisedAt(states, steps, i)
    ensures SameResult(states[i + 1].run, states[j].run)
  {
    if i + 1 < j {
      FinalIsStable(states, steps, i, j - 1);
      EndedStays(states, steps, i, j - 1);
      Reached(states, steps, j - 1);
      assert Follows(states, steps, j - 1);
      FinalNext(states, steps, j - 1);
      SameResultTransitive(states[i + 1].run, states[j - 1].run, states[j].run);
    }
  }

  lemma CountOne(item: Item, p: Item -> bool)
    ensures CountWhere([item], p) == if p(item) then 1 else 0
  {
    assert [item][..0] == [];
  }

  lemma RecountOfShortcut()
    ensures Recounted([Item(Success, NoResult, false)]) == Counters(1, 0, 0, 0, 0, 0, 0)
  {
    var item := Item(Success, NoResult, false);
    CountOne(item, IsTerminal());
    CountOne(item, HasResult(CompletedResult));
    CountOne(item, HasResult(AttentionResult));
    CountOne(item, HasStatus(Failed));
    CountOne(item, HasStatus(SkippedManualChange));
    CountOne(item, HasStatus(Cancelled));
  }

  /** The sum of the outcome counters is not always the total: a run of one item that takes the
      shortcut ends as a success with one processed item and five zero counters. */
  lemma ShortcutBreaksPartition() returns (states: seq<State>, steps: seq<Step>)
    ensures IsRun(states, steps) && |steps| == 2 && FinalisedAt(states, steps, 1)
    ensures states[2].run.status == RunSuccess && states[2].run.total == 1 && states[2].run.counters == Counters(1, 0, 0, 0, 0, 0, 0)
  {
    var zero := Counters(0, 0, 0, 0, 0, 0, 0);
    var queued, finished := Item(Queued, NoResult, false), Item(Success, NoResult, false);
    var start := Run(RunRunning, false, 1, 0, zero, zero, [queued]);
    steps := [Finish(0, Success, NoResult), Finalise(zero)];
    var end := Run(RunSuccess, false, 1, 1, Counters(1, 0, 0, 0, 0, 0, 0), zero, [finished]);
    states := [State(start, multiset{}), State(start.(items := [finished]), multiset{}), State(end, multiset{})];
    CountOne(queued, ReportedAs(Success));
    CountOne(queued, ReportedAs(NeedsAttention));
    CountOne(queued, ReportedAs(Failed));
    CountOne(queued, ReportedAs(SkippedManualChange));
    CountOne(queued, ReportedAs(Cancelled));
    CountOne(finished, IsTerminal());
    RecountOfShortcut();
    assert Follows(states, steps, 0) && Follows(states, steps, 1);
  }
}
