/** Every event log that the actions can write, and what dashboard and export make of it. */
module AttemptRuns {
  import opened Wrappers
  import opened HandlingTime
  import opened Attempts

  datatype State = State(attempts: seq<Attempt>, clock: int)

  datatype Step =
    | Create(source: Source, review: bool, initial: nat, current: nat, t: Times)
    | Confirm(i: nat, at: int)
    | Dispatch(i: nat, at: int)
    | Transfer(i: nat, seen: nat, target: nat, allowed: bool, auto: bool, at: int)
    | Feedback(i: nat, seen: nat, passed: bool, allowed: bool, at: int)
    | Cancel(i: nat, at: int)
    | CancelUnfeedbacked(sources: Option<set<Source>>, at: int)

  /** The attempt exists, the clock does not run backwards, and only attempts before their second-level
      department are created for review. */
  predicate Enabled(s: State, step: Step) {
    match step
    case Create(_, review, initial, current, t) =>
      (review ==> current == initial) && s.clock <= t.created <= t.noted <= t.sent <= t.forwarded
    case CancelUnfeedbacked(_, at) => s.clock <= at
    case _ => step.i < |s.attempts| && s.clock <= step.at
  }

  function Apply(s: State, step: Step): State
    requires Enabled(s, step)
  {
    match step
    case Create(source, review, initial, current, t) =>
      State(s.attempts + [Started(source, review, initial, current, t)], t.forwarded)
    case Confirm(i, at) => State(With(s.attempts, i, Confirmed(s.attempts[i], at)), at)
    case Dispatch(i, at) => State(With(s.attempts, i, Sent(s.attempts[i], at)), at)
    case Transfer(i, seen, target, allowed, auto, at) =>
      State(With(s.attempts, i, Moved(s.attempts[i], seen, target, allowed, auto, at)), at)
    case Feedback(i, seen, passed, allowed, at) =>
      State(AfterFeedback(s.attempts, i, Answered(s.attempts[i], seen, passed, allowed, at), passed, at), at)
    case Cancel(i, at) => State(With(s.attempts, i, Dropped(s.attempts[i], at)), at)
    case CancelUnfeedbacked(sources, at) => State(Swept(s.attempts, sources, at), at)
  }

  /** A run of any length that starts without attempts. */
  ghost predicate IsRun(states: seq<State>, steps: seq<Step>) {
    && |states| == |steps| + 1 && states[0].attempts == []
    && forall k | 0 <= k < |steps| :: Enabled(states[k], steps[k]) && states[k + 1] == Apply(states[k], steps[k])
  }

  // ----- What the log of an attempt looks like -----

  /** The log is in time order, after the creation, and not in the future. */
  ghost predicate Timely(a: Attempt, clock: int) {
    a.log != [] && Ordered(a.log) && a.created <= a.log[0].at && a.log[|a.log| - 1].at <= clock
  }

  /** One dispatch, then transfers between departments up to the current one. */
  ghost predicate Route(stops: seq<Event>, current: nat) {
    DispatchedOnce(stops) && Owned(stops) && stops[|stops| - 1].to == Some(current)
  }

  /** The log ends with the only event of a closing kind. */
  ghost predicate ClosedBy(log: seq<Event>, kind: Kind) {
    log != [] && log[|log| - 1].kind == kind && Open(log[..|log| - 1])
  }

  ghost predicate Phase(a: Attempt) {
    match a.status
    case PendingReview => Open(a.log) && Stops(a.log) == []
    case PendingDispatch => Open(a.log) && Stops(a.log) == []
    case Dispatched => Open(a.log) && Route(Stops(a.log), a.current)
    case Passed => ClosedBy(a.log, Kind.Passed) && Route(Stops(a.log), a.current)
    case Rejected => ClosedBy(a.log, Kind.Rejected) && Route(Stops(a.log), a.current)
    case Cancelled => ClosedBy(a.log, Kind.Cancelled) && (Stops(a.log) == [] || Route(Stops(a.log), a.current))
  }

  ghost predicate Sound(a: Attempt, clock: int) {
    Timely(a, clock) && Phase(a)
  }

  ghost predicate AllSound(s: State) {
    forall i | 0 <= i < |s.attempts| :: Sound(s.attempts[i], s.clock)
  }

  lemma StopsStep(log: seq<Event>, e: Event)
    ensures Stops(log + [e]) == if IsStop(e) then Stops(log) + [e] else Stops(log)
  {
    assert (log + [e])[..|log|] == log;
  }

  lemma LogStep(a: Attempt, b: Attempt, clock: int, e: Event)
    requires Timely(a, clock) && clock <= e.at && b.log == a.log + [e] && b.created == a.created
    ensures Timely(b, e.at)
    ensures Open(a.log) && !IsClosing(e) ==> Open(b.log)
    ensures Open(a.log) ==> ClosedBy(b.log, e.kind)
    ensures Stops(b.log) == if IsStop(e) then Stops(a.log) + [e] else Stops(a.log)
  {
    StopsStep(a.log, e);
    assert b.log[..|a.log|] == a.log;
  }

  lemma RouteStep(stops: seq<Event>, e: Event, current: nat, target: nat)
    requires Route(stops, current) && e.kind == Transferred && e.to == Some(target)
    ensures Route(stops + [e], target)
  {
  }

  lemma RouteStart(stops: seq<Event>, e: Event, current: nat)
    requires stops == [] && e.kind == Kind.Dispatched && e.to == Some(current)
    ensures Route(stops + [e], current)
  {
  }

  lemma OnlyEvent(log: seq<Event>)
    requires |log| == 1 && log[0].kind == Other
    ensures Open(log) && Stops(log) == []
  {
    assert log[..0] == [];
  }

  lemma NotedIsSound(a: Attempt)
    requires |a.log| == 1 && a.log[0].kind == Other && a.created <= a.log[0].at
    requires a.status == PendingReview || a.status == PendingDispatch
    ensures Sound(a, a.log[0].at)
  {
    OnlyEvent(a.log);
  }

  lemma DispatchIsSound(a: Attempt, b: Attempt, clock: int, e: Event)
    requires Sound(a, clock) && a.status == PendingDispatch && clock <= e.at
    requires e.kind == Kind.Dispatched && e.to == Some(b.current)
    requires b.status == Status.Dispatched && b.log == a.log + [e] && b.created == a.created
    ensures Sound(b, e.at)
  {
    LogStep(a, b, clock, e);
    RouteStart(Stops(a.log), e, b.current);
  }

  lemma StartedIsSound(source: Source, review: bool, initial: nat, current: nat, t: Times)
    requires review ==> current == initial
    requires t.created <= t.noted <= t.sent <= t.forwarded
    ensures Sound(Started(source, review, initial, current, t), t.forwarded)
  {
    var a := Started(source, review, initial, current, t);
    var noted := Event(Other, t.noted, None, source != Source.Manual);
    if current == initial {
      NotedIsSound(a);
      SoundLater(a, t.noted, t.forwarded);
    } else {
      var sent := Event(Kind.Dispatched, t.sent, Some(initial), source == Ai);
      var forwarded := Event(Transferred, t.forwarded, Some(current), true);
      var first := Attempt(source, PendingDispatch, initial, t.created, None, [noted]);
      var second := first.(status := Status.Dispatched, log := first.log + [sent]);
      NotedIsSound(first);
      DispatchIsSound(first, second, t.noted, sent);
      assert a.log == second.log + [forwarded];
      TransferIsSound(second, a, t.sent, forwarded);
    }
  }

  lemma TransferIsSound(a: Attempt, b: Attempt, clock: int, e: Event)
    requires Sound(a, clock) && a.status == Status.Dispatched && clock <= e.at
    requires e.kind == Transferred && e.to == Some(b.current)
    requires b.status == Status.Dispatched && b.log == a.log + [e] && b.created == a.created
    ensures Sound(b, e.at)
  {
    LogStep(a, b, clock, e);
    RouteStep(Stops(a.log), e, a.current, b.current);
  }

  lemma SoundLater(a: Attempt, clock: int, later: int)
    requires Sound(a, clock) && clock <= later
    ensures Sound(a, later)
  {
  }

  lemma ConfirmedIsSound(a: Attempt, clock: int, at: int)
    requires Sound(a, clock) && clock <= at && Confirmed(a, at).Ok?
    ensures Sound(Confirmed(a, at).value, at)
  {
    LogStep(a, Confirmed(a, at).value, clock, Event(Other, at, None, false));
  }

  lemma SentIsSound(a: Attempt, clock: int, at: int)
    requires Sound(a, clock) && clock <= at && Sent(a, at).Ok?
    ensures Sound(Sent(a, at).value, at)
  {
    DispatchIsSound(a, Sent(a, at).value, clock, Event(Kind.Dispatched, at, Some(a.current), false));
  }

  lemma MovedIsSound(a: Attempt, seen: nat, target: nat, allowed: bool, auto: bool, clock: int, at: int)
    requires Sound(a, clock) && clock <= at && Moved(a, seen, target, allowed, auto, at).Ok?
    ensures Sound(Moved(a, seen, target, allowed, auto, at).value, at)
  {
    TransferIsSound(a, Moved(a, seen, target, allowed, auto, at).value, clock, Event(Transferred, at, Some(target), auto));
  }

  lemma AnsweredIsSound(a: Attempt, seen: nat, passed: bool, allowed: bool, clock: int, at: int)
    requires Sound(a, clock) && clock <= at && Answered(a, seen, passed, allowed, at).Ok?
    ensures Sound(Answered(a, seen, passed, allowed, at).value, at)
  {
    var e := Event(if passed then Kind.Passed else Kind.Rejected, at, None, false);
    LogStep(a, Answered(a, seen, passed, allowed, at).value, clock, e);
  }

  lemma WithdrawnIsSound(a: Attempt, auto: bool, clock: int, at: int)
    requires Sound(a, clock) && clock <= at && Unfeedbacked(a)
    ensures Sound(Withdrawn(a, auto, at), at)
  {
    LogStep(a, Withdrawn(a, auto, at), clock, Event(Kind.Cancelled, at, None, auto));
  }

  lemma WithIsSound(s: State, i: nat, r: Result<Attempt, Error>, at: int)
    requires AllSound(s) && s.clock <= at && i < |s.attempts|
    requires r.Ok? ==> Sound(r.value, at)
    ensures AllSound(State(With(s.attempts, i, r), at))
  {
  }

  lemma SweptIsSound(s: State, sources: Option<set<Source>>, at: int)
    requires AllSound(s) && s.clock <= at
    ensures AllSound(State(Swept(s.attempts, sources, at), at))
  {
    forall i | 0 <= i < |s.attempts| ensures Sound(Swept(s.attempts, sources, at)[i], at) {
      var a := s.attempts[i];
      if Unfeedbacked(a) {
        WithdrawnIsSound(a, true, s.clock, at);
      }
    }
  }

  /** Every action keeps every log in the form of its attempt's status. */
  lemma StepKeeps(s: State, step: Step)
    requires AllSound(s) && Enabled(s, step)
    ensures AllSound(Apply(s, step))
  {
    match step
    case Create(source, review, initial, current, t) =>
      StartedIsSound(source, review, initial, current, t);
    case Confirm(i, at) =>
      if Confirmed(s.attempts[i], at).Ok? {
        ConfirmedIsSound(s.attempts[i], s.clock, at);
      }
      WithIsSound(s, i, Confirmed(s.attempts[i], at), at);
    case Dispatch(i, at) =>
      if Sent(s.attempts[i], at).Ok? {
        SentIsSound(s.attempts[i], s.clock, at);
      }
      WithIsSound(s, i, Sent(s.attempts[i], at), at);
    case Transfer(i, seen, target, allowed, auto, at) =>
      var r := Moved(s.attempts[i], seen, target, allowed, auto, at);
      if r.Ok? {
        MovedIsSound(s.attempts[i], seen, target, allowed, auto, s.clock, at);
      }
      WithIsSound(s, i, r, at);
    case Feedback(i, seen, passed, allowed, at) =>
      var r := Answered(s.attempts[i], seen, passed, allowed, at);
      if r.Ok? {
        AnsweredIsSound(s.attempts[i], seen, passed, allowed, s.clock, at);
      }
      WithIsSound(s, i, r, at);
      SweptIsSound(State(With(s.attempts, i, r), at), None, at);
    case Cancel(i, at) =>
      if Dropped(s.attempts[i], at).Ok? {
        WithdrawnIsSound(s.attempts[i], false, s.clock, at);
      }
      WithIsSound(s, i, Dropped(s.attempts[i], at), at);
    case CancelUnfeedbacked(sources, at) =>
      SweptIsSound(s, sources, at);
  }

  /** An attempt of a state of some run. */
  ghost predicate Reached(states: seq<State>, steps: seq<Step>, a: Attempt, clock: int) {
    IsRun(states, steps) && a in states[|steps|].attempts && clock == states[|steps|].clock
  }

  lemma {:induction false} ReachedStates(states: seq<State>, steps: seq<Step>)
    requires IsRun(states, steps)
    ensures AllSound(states[|steps|])
  {
    if steps != [] {
      var n := |steps| - 1;
      ReachedStates(states[..n + 1], steps[..n]);
      StepKeeps(states[n], steps[n]);
    }
  }

  lemma ReachedIsSound(states: seq<State>, steps: seq<Step>, a: Attempt, clock: int)
    requires Reached(states, steps, a, clock)
    ensures Sound(a, clock)
  {
    ReachedStates(states, steps);
  }

  // ----- Dashboard and export on every log that is written -----

  function Shown(a: Attempt): Handling {
    Fold(Relevant(a.log), a.created)
  }

  function Export(a: Attempt, now: int): Processing {
    Exported(a.log, a.created, Some(a.current), now)
  }

  lemma ClosingIsLast(log: seq<Event>)
    requires log != [] && Open(log[..|log| - 1])
    ensures IsClosing(log[|log| - 1]) ==> Closing(log) == |log| - 1 && Relevant(log) == log
    ensures !IsClosing(log[|log| - 1]) ==> Closing(log) == |log| && Relevant(log) == log
  {
    var n := |log| - 1;
    assert forall i | 0 <= i < n :: !IsClosing(log[..n][i]) && log[..n][i] == log[i];
    if IsClosing(log[n]) {
      assert log[..n + 1] == log;
    }
  }

  /** Whoever has answered: both report the same dispatch, hiring-team time and total, none of them missing,
      the department's time is the last segment, and no time is lost. */
  lemma AnsweredAttemptsAgree(states: seq<State>, steps: seq<Step>, a: Attempt, clock: int, now: int)
    requires Reached(states, steps, a, clock) && (a.status == Status.Passed || a.status == Status.Rejected)
    ensures var h, x := Shown(a), Export(a, now);
      && x.first == h.first && x.hrDuration == h.hr && x.totalDuration == h.total
      && h.hr.Some? && h.total.Some? && x.currentDuration.Some?
      && h.counted != [] && h.counted[|h.counted| - 1] == Segment(a.current, x.currentDuration.value)
      && TotalOf(h.counted) + GapTime(Stops(a.log), Automatic) == h.total.value
  {
    ReachedIsSound(states, steps, a, clock);
    ClosingIsLast(a.log);
    DashboardAndExportAgree(a.log, a.created, a.current, now);
    CountedPlusAutomaticIsTotal(a.log, a.created);
    FirstIsAfterCreation(a, clock);
    FoldKeepsFirstDispatch(a.log, a.created);
  }

  lemma FirstIsAfterCreation(a: Attempt, clock: int)
    requires Timely(a, clock) && FirstDispatch(a.log).Some?
    ensures a.created <= FirstDispatch(a.log).value
  {
    var i := FirstDispatchAt(a.log);
    assert a.log[0].at <= a.log[i].at;
  }

  /** While a department has the attempt, both report the same age. */
  lemma DispatchedAttemptsAgree(states: seq<State>, steps: seq<Step>, a: Attempt, clock: int, now: int)
    requires Reached(states, steps, a, clock) && a.status == Status.Dispatched && clock <= now
    ensures var h, x := Shown(a), Export(a, now);
      && x.first == h.first && x.first.Some? && x.hrDuration == h.hr
      && x.currentDuration.Some? && Pending(h, true, now) == Some(Segment(a.current, x.currentDuration.value))
  {
    ReachedIsSound(states, steps, a, clock);
    OpenSegmentsAgree(a.log, a.created, a.current, now);
    assert Open(a.log[..|a.log| - 1]);
    ClosingIsLast(a.log);
    FoldKeepsFirstDispatch(a.log, a.created);
    FirstStopIsFirstDispatch(a.log);
  }

  /** Whatever was done with it, both report the same total, and there is one exactly if there was an answer. */
  lemma TotalsAgree(states: seq<State>, steps: seq<Step>, a: Attempt, clock: int, now: int)
    requires Reached(states, steps, a, clock)
    ensures Shown(a).total == Export(a, now).totalDuration
    ensures Shown(a).total.Some? <==> a.status == Status.Passed || a.status == Status.Rejected
  {
    ReachedIsSound(states, steps, a, clock);
    if a.status == Status.Passed || a.status == Status.Rejected {
      AnsweredAttemptsAgree(states, steps, a, clock, now);
    } else {
      assert Open(a.log[..|a.log| - 1]);
      ClosingIsLast(a.log);
      FoldMeasuresTotal(a.log, a.created);
      assert LastFeedback(a.log).None?;
    }
  }
}
