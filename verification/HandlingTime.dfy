/** Handling times of one attempt, computed twice: by the dashboard, which folds over the event log, and by
    the export, which searches the same log.  Times are whole microseconds. */
module HandlingTime {
  import opened Wrappers

  datatype Kind = Dispatched | Transferred | Passed | Rejected | Cancelled | Other

  datatype Event = Event(kind: Kind, at: int, to: Option<nat>, auto: bool)

  datatype Segment = Segment(department: nat, duration: int)

  predicate IsFeedback(e: Event) {
    e.kind == Passed || e.kind == Rejected
  }

  predicate IsClosing(e: Event) {
    IsFeedback(e) || e.kind == Cancelled
  }

  predicate IsStop(e: Event) {
    e.kind == Dispatched || e.kind == Transferred
  }

  ghost predicate Ordered(log: seq<Event>) {
    forall i, j | 0 <= i <= j < |log| :: log[i].at <= log[j].at
  }

  function Elapsed(start: Option<int>, end: Option<int>): Option<int> {
    if start.None? || end.None? || end.value < start.value then None else Some(end.value - start.value)
  }

  // ----- The dashboard -----

  datatype Handling = Handling(
    first: Option<int>, hr: Option<int>, active: Option<nat>, entered: Option<int>, counted: seq<Segment>, total: Option<int>)

  const START := Handling(None, None, None, None, [], None)

  /** The segments after one that ends now is counted. */
  function Closed(h: Handling, at: int): seq<Segment> {
    if h.active.Some? && Elapsed(h.entered, Some(at)).Some?
    then h.counted + [Segment(h.active.value, Elapsed(h.entered, Some(at)).value)]
    else h.counted
  }

  function Step(h: Handling, e: Event, created: int): Handling {
    match e.kind
    case Dispatched =>
      h.(first := if h.first.None? then Some(e.at) else h.first,
         hr := if h.first.None? then Elapsed(Some(created), Some(e.at)) else h.hr,
         active := e.to, entered := Some(e.at))
    case Transferred =>
      h.(counted := if e.auto then h.counted else Closed(h, e.at), active := e.to, entered := Some(e.at))
    case Passed => Feedback(h, e)
    case Rejected => Feedback(h, e)
    case Cancelled => h.(active := None, entered := None)
    case Other => h
  }

  function Feedback(h: Handling, e: Event): Handling {
    h.(total := if h.first.Some? then Elapsed(h.first, Some(e.at)) else h.total,
       counted := Closed(h, e.at), active := None, entered := None)
  }

  /** All steps of a log. */
  function Fold(log: seq<Event>, created: int): Handling {
    if log == [] then START else Step(Fold(log[..|log| - 1], created), log[|log| - 1], created)
  }

  /** The position of the first feedback or cancellation, if there is one. */
  function Closing(log: seq<Event>): (c: nat)
    ensures c <= |log| && (c < |log| ==> IsClosing(log[c])) && forall i | 0 <= i < c :: !IsClosing(log[i])
  {
    if log == [] then 0
    else
      var n := |log| - 1;
      var c := Closing(log[..n]);
      if c < n then c else if IsClosing(log[n]) then n else n + 1
  }

  /** The log as far as the dashboard reads it. */
  function Relevant(log: seq<Event>): seq<Event> {
    if Closing(log) < |log| then log[..Closing(log) + 1] else log
  }

  /** The segment that is still open, with its age. */
  function Pending(h: Handling, dispatched: bool, now: int): Option<Segment> {
    if dispatched && h.active.Some? && Elapsed(h.entered, Some(now)).Some?
    then Some(Segment(h.active.value, Elapsed(h.entered, Some(now)).value)) else None
  }

  /** The dashboard's pass over the log of an attempt, and the age of its open segment. */
  method BuildHandling(log: seq<Event>, created: int, dispatched: bool, now: int) returns (h: Handling, pending: Option<Segment>)
    ensures h == Fold(Relevant(log), created)
    ensures pending == Pending(h, dispatched, now)
  {
    var first: Option<int>, hr: Option<int>, active: Option<nat>, entered: Option<int> := None, None, None, None;
    var counted: seq<Segment>, total: Option<int> := [], None;
    var i := 0;
    while i < |log|
      invariant i <= |log| && i <= Closing(log)
      invariant Handling(first, hr, active, entered, counted, total) == Fold(log[..i], created)
    {
      var e := log[i];
      TakeNext(log, i);
      i := i + 1;
      if e.kind == Dispatched {
        if first.None? {
          first := Some(e.at);
          hr := Elapsed(Some(created), first);
        }
        active, entered := e.to, Some(e.at);
        continue;
      }
      if e.kind == Transferred {
        if active.Some? && entered.Some? && !e.auto {
          var duration := Elapsed(entered, Some(e.at));
          if duration.Some? {
            counted := counted + [Segment(active.value, duration.value)];
          }
        }
        active, entered := e.to, Some(e.at);
        continue;
      }
      if IsFeedback(e) {
        if first.Some? {
          total := Elapsed(first, Some(e.at));
        }
        if active.Some? && entered.Some? {
          var duration := Elapsed(entered, Some(e.at));
          if duration.Some? {
            counted := counted + [Segment(active.value, duration.value)];
          }
        }
        active, entered := None, None;
        break;
      }
      if e.kind == Cancelled {
        active, entered := None, None;
        break;
      }
    }
    h := Handling(first, hr, active, entered, counted, total);
    assert log[..|log|] == log;
    pending := None;
    if dispatched && active.Some? && entered.Some? {
      var age := Elapsed(entered, Some(now));
      if age.Some? {
        pending := Some(Segment(active.value, age.value));
      }
    }
  }

  // ----- What the segments add up to -----

  function TotalOf(segments: seq<Segment>): int {
    if segments == [] then 0 else TotalOf(segments[..|segments| - 1]) + segments[|segments| - 1].duration
  }

  /** The events that put the attempt before a department, in order. */
  function Stops(log: seq<Event>): (stops: seq<Event>)
    ensures forall e | e in stops :: e in log && IsStop(e)
  {
    if log == [] then []
    else
      var n := |log| - 1;
      Stops(log[..n]) + if IsStop(log[n]) then [log[n]] else []
  }

  /** Why the time between two stops is counted or not: it ended by a manual transfer from a department, by
      an automatic transfer, by another dispatch, or nobody had the attempt. */
  datatype Gap = Manual | Automatic | Redispatched | Unowned

  function GapOf(from: Event, to: Event): Gap {
    if to.kind == Dispatched then Redispatched
    else if to.auto then Automatic
    else if from.to.None? then Unowned
    else Manual
  }

  /** The time between consecutive stops, over the gaps of one kind. */
  function GapTime(stops: seq<Event>, gap: Gap): int {
    if |stops| < 2 then 0
    else
      var n := |stops| - 1;
      GapTime(stops[..n], gap) + if GapOf(stops[n - 1], stops[n]) == gap then stops[n].at - stops[n - 1].at else 0
  }

  lemma {:induction false} GapsTelescope(stops: seq<Event>)
    requires stops != []
    ensures GapTime(stops, Manual) + GapTime(stops, Automatic) + GapTime(stops, Redispatched) + GapTime(stops, Unowned)
      == stops[|stops| - 1].at - stops[0].at
  {
    if |stops| > 1 {
      GapsTelescope(stops[..|stops| - 1]);
    }
  }

  lemma GapStep(stops: seq<Event>, e: Event, gap: Gap)
    ensures GapTime(stops + [e], gap) == GapTime(stops, gap)
      + if stops != [] && GapOf(stops[|stops| - 1], e) == gap then e.at - stops[|stops| - 1].at else 0
  {
    assert (stops + [e])[..|stops|] == stops;
  }

  ghost predicate Open(log: seq<Event>) {
    Ordered(log) && forall i | 0 <= i < |log| :: !IsClosing(log[i])
  }

  /** The open segment is the last stop, which is not later than at. */
  ghost predicate AtLastStop(h: Handling, stops: seq<Event>, at: int) {
    if stops == [] then h.entered.None? && h.active.None?
    else
      var last := stops[|stops| - 1];
      h.entered == Some(last.at) && h.active == last.to && last.at <= at
  }

  lemma ClosedAdds(h: Handling, at: int)
    ensures TotalOf(Closed(h, at)) == TotalOf(h.counted)
      + if h.active.Some? && h.entered.Some? && h.entered.value <= at then at - h.entered.value else 0
  {
    if h.active.Some? && Elapsed(h.entered, Some(at)).Some? {
      assert Closed(h, at)[..|h.counted|] == h.counted;
    }
  }

  ghost predicate Measures(h: Handling, stops: seq<Event>, at: int) {
    AtLastStop(h, stops, at) && TotalOf(h.counted) == GapTime(stops, Manual) && h.total.None?
  }

  lemma MeasuresLater(h: Handling, stops: seq<Event>, at: int, later: int)
    requires Measures(h, stops, at) && at <= later
    ensures Measures(h, stops, later)
  {
  }

  lemma StepMeasures(h: Handling, stops: seq<Event>, e: Event, created: int)
    requires Measures(h, stops, e.at) && !IsClosing(e)
    ensures Measures(Step(h, e, created), if IsStop(e) then stops + [e] else stops, e.at)
  {
    if IsStop(e) {
      GapStep(stops, e, Manual);
      ClosedAdds(h, e.at);
    }
  }

  /** Before the log is closed, the open segment is the last stop, and the counted segments add up to the
      manual gaps. */
  lemma {:induction false} FoldMeasuresGaps(log: seq<Event>, created: int, at: int)
    requires Open(log) && (log != [] ==> log[|log| - 1].at <= at)
    ensures Measures(Fold(log, created), Stops(log), at)
  {
    if log != [] {
      var n := |log| - 1;
      var h, stops, e := Fold(log[..n], created), Stops(log[..n]), log[n];
      FoldMeasuresGaps(log[..n], created, e.at);
      StepMeasures(h, stops, e, created);
      MeasuresLater(Step(h, e, created), if IsStop(e) then stops + [e] else stops, e.at, at);
      assert Stops(log) == if IsStop(e) then stops + [e] else stops;
    }
  }

  /** The time of the first dispatch. */
  function FirstDispatch(log: seq<Event>): (first: Option<int>)
    ensures first.Some? <==> exists i :: 0 <= i < |log| && log[i].kind == Dispatched
  {
    if log == [] then None
    else
      var n := |log| - 1;
      var earlier := FirstDispatch(log[..n]);
      if earlier.Some? then earlier else if log[n].kind == Dispatched then Some(log[n].at) else None
  }

  lemma {:induction false} FoldKeepsFirstDispatch(log: seq<Event>, created: int)
    ensures var h := Fold(log, created);
      h.first == FirstDispatch(log) && h.hr == if h.first.Some? then Elapsed(Some(created), h.first) else None
  {
    if log != [] {
      FoldKeepsFirstDispatch(log[..|log| - 1], created);
    }
  }

  /** A log that ends with the feedback that closes it. */
  ghost predicate EndsWithFeedback(log: seq<Event>) {
    log != [] && Ordered(log) && IsFeedback(log[|log| - 1]) && Open(log[..|log| - 1])
  }

  /** Time spent after the last stop, if nobody had the attempt then. */
  function UnownedEnd(stops: seq<Event>, end: int): int {
    if stops != [] && stops[|stops| - 1].to.None? then end - stops[|stops| - 1].at else 0
  }

  /** The counted segments and the four kinds of uncounted time fill the span from the first stop to the end. */
  ghost predicate FillsSpan(counted: seq<Segment>, stops: seq<Event>, end: int) {
    && stops != []
    && TotalOf(counted) + GapTime(stops, Automatic) + GapTime(stops, Redispatched) + GapTime(stops, Unowned) + UnownedEnd(stops, end)
       == end - stops[0].at
  }

  /** The segment of the last stop is the one that a feedback closes. */
  lemma ClosedSegment(h: Handling, stops: seq<Event>, at: int)
    requires AtLastStop(h, stops, at) && stops != [] && stops[|stops| - 1].to.Some?
    ensures Closed(h, at) == h.counted + [Segment(stops[|stops| - 1].to.value, at - stops[|stops| - 1].at)]
  {
  }

  lemma ClosedTotal(h: Handling, stops: seq<Event>, at: int)
    requires AtLastStop(h, stops, at) && stops != []
    ensures TotalOf(Closed(h, at)) + UnownedEnd(stops, at) == TotalOf(h.counted) + at - stops[|stops| - 1].at
  {
    ClosedAdds(h, at);
  }

  lemma FeedbackMeasures(h: Handling, stops: seq<Event>, e: Event, created: int)
    requires Measures(h, stops, e.at) && stops != [] && IsFeedback(e)
    ensures FillsSpan(Step(h, e, created).counted, stops, e.at)
  {
    assert Step(h, e, created).counted == Closed(h, e.at);
    GapsTelescope(stops);
    ClosedTotal(h, stops, e.at);
  }

  /** Conservation: no time between the first stop and the feedback is lost or counted twice. */
  lemma SegmentsFillTheSpan(log: seq<Event>, created: int)
    requires EndsWithFeedback(log) && Stops(log) != []
    ensures FillsSpan(Fold(log, created).counted, Stops(log), log[|log| - 1].at)
  {
    var n := |log| - 1;
    BeforeFeedback(log, created);
    FeedbackMeasures(Fold(log[..n], created), Stops(log[..n]), log[n], created);
  }

  lemma BeforeFeedback(log: seq<Event>, created: int)
    requires EndsWithFeedback(log)
    ensures var n := |log| - 1;
      Measures(Fold(log[..n], created), Stops(log[..n]), log[n].at) && Stops(log) == Stops(log[..n])
  {
    FoldMeasuresGaps(log[..|log| - 1], created, log[|log| - 1].at);
  }

  /** Every stop names a department. */
  ghost predicate Owned(stops: seq<Event>) {
    forall i | 0 <= i < |stops| :: stops[i].to.Some?
  }

  /** Only the first stop is a dispatch. */
  ghost predicate DispatchedOnce(stops: seq<Event>) {
    stops != [] && stops[0].kind == Dispatched && forall i | 1 <= i < |stops| :: stops[i].kind == Transferred
  }

  lemma {:induction false} NothingElseUncounted(stops: seq<Event>)
    requires Owned(stops) && DispatchedOnce(stops)
    ensures GapTime(stops, Redispatched) == 0 && GapTime(stops, Unowned) == 0
  {
    if |stops| > 1 {
      NothingElseUncounted(stops[..|stops| - 1]);
    }
  }

  lemma {:induction false} FirstStopIsFirstDispatch(log: seq<Event>)
    requires Stops(log) != [] && Stops(log)[0].kind == Dispatched
    ensures FirstDispatch(log) == Some(Stops(log)[0].at)
  {
    var n := |log| - 1;
    if Stops(log[..n]) != [] {
      FirstStopIsFirstDispatch(log[..n]);
    } else {
      NoStopNoDispatch(log[..n]);
    }
  }

  lemma {:induction false} NoStopNoDispatch(log: seq<Event>)
    requires Stops(log) == []
    ensures FirstDispatch(log).None?
  {
    if log != [] {
      NoStopNoDispatch(log[..|log| - 1]);
    }
  }

  /** If the first stop is a dispatch, the reported total is the time from it to the feedback; the counted
      segments and those closed by automatic transfers make it up exactly when no time was lost to a second
      dispatch or to stops without a department. */
  lemma CountedPlusAutomaticIsTotalIff(log: seq<Event>, created: int)
    requires EndsWithFeedback(log) && Stops(log) != [] && Stops(log)[0].kind == Dispatched
    ensures var h, stops, end := Fold(log, created), Stops(log), log[|log| - 1].at;
      && h.total == Some(end - stops[0].at)
      && (TotalOf(h.counted) + GapTime(stops, Automatic) == h.total.value <==>
          GapTime(stops, Redispatched) + GapTime(stops, Unowned) + UnownedEnd(stops, end) == 0)
  {
    var n := |log| - 1;
    SegmentsFillTheSpan(log, created);
    BeforeFeedback(log, created);
    FoldKeepsFirstDispatch(log[..n], created);
    FirstStopIsFirstDispatch(log[..n]);
    StopsAreOrdered(log[..n], log[n].at);
  }

  /** With one dispatch, any number of transfers between departments and a feedback, the counted segments plus
      the segments closed by automatic transfers are exactly the reported total. */
  lemma CountedPlusAutomaticIsTotal(log: seq<Event>, created: int)
    requires EndsWithFeedback(log) && DispatchedOnce(Stops(log)) && Owned(Stops(log))
    ensures var h := Fold(log, created);
      h.total.Some? && TotalOf(h.counted) + GapTime(Stops(log), Automatic) == h.total.value
  {
    CountedPlusAutomaticIsTotalIff(log, created);
    NothingElseUncounted(Stops(log));
  }

  lemma {:induction false} StopsAreOrdered(log: seq<Event>, at: int)
    requires Ordered(log) && (log != [] ==> log[|log| - 1].at <= at)
    ensures forall i | 0 <= i < |Stops(log)| :: Stops(log)[i].at <= at
  {
    if log != [] {
      assert |log| > 1 ==> log[|log| - 2].at <= log[|log| - 1].at;
      StopsAreOrdered(log[..|log| - 1], at);
    }
  }

  // ----- Which segments are counted -----

  /** The stops that a manual transfer ends, if they named a department. */
  ghost predicate EndsByHand(stops: seq<Event>, k: nat) {
    k + 1 < |stops| && stops[k + 1].kind == Transferred && !stops[k + 1].auto && stops[k].to.Some?
  }

  /** The segments are those of the given stops, each with its own department and up to the next stop. */
  ghost predicate SegmentsOf(stops: seq<Event>, ended: seq<nat>, counted: seq<Segment>) {
    && |counted| == |ended|
    && (forall a, b | 0 <= a < b < |ended| :: ended[a] < ended[b])
    && (forall k: nat :: k in ended <==> EndsByHand(stops, k))
    && forall a | 0 <= a < |ended| ::
         && ended[a] + 1 < |stops| && stops[ended[a]].to.Some?
         && counted[a] == Segment(stops[ended[a]].to.value, stops[ended[a] + 1].at - stops[ended[a]].at)
  }

  /** A stop that was the last one is ended by the next stop, or is not counted. */
  lemma EndsNext(stops: seq<Event>, e: Event, k: nat)
    ensures EndsByHand(stops + [e], k) <==>
      EndsByHand(stops, k) || (k + 1 == |stops| && e.kind == Transferred && !e.auto && stops[k].to.Some?)
  {
  }

  lemma SegmentsStay(stops: seq<Event>, e: Event, ended: seq<nat>, counted: seq<Segment>)
    requires SegmentsOf(stops, ended, counted) && (stops != [] ==> !EndsByHand(stops + [e], |stops| - 1))
    ensures SegmentsOf(stops + [e], ended, counted)
  {
    forall k: nat ensures k in ended <==> EndsByHand(stops + [e], k) {
      EndsNext(stops, e, k);
    }
  }

  lemma SegmentsGrow(stops: seq<Event>, e: Event, ended: seq<nat>, counted: seq<Segment>)
    requires SegmentsOf(stops, ended, counted) && stops != [] && EndsByHand(stops + [e], |stops| - 1)
    ensures var n := |stops| - 1;
      SegmentsOf(stops + [e], ended + [n], counted + [Segment(stops[n].to.value, e.at - stops[n].at)])
  {
    var n, stops' := |stops| - 1, stops + [e];
    var ended', counted' := ended + [n], counted + [Segment(stops[n].to.value, e.at - stops[n].at)];
    forall k: nat ensures k in ended' <==> EndsByHand(stops', k) {
      EndsNext(stops, e, k);
      assert k in ended <==> EndsByHand(stops, k);
    }
    forall a, b | 0 <= a < b < |ended'| ensures ended'[a] < ended'[b] {
      assert ended[a] in ended && EndsByHand(stops, ended[a]);
    }
    forall a | 0 <= a < |ended'|
      ensures ended'[a] + 1 < |stops'| && stops'[ended'[a]].to.Some?
      ensures counted'[a] == Segment(stops'[ended'[a]].to.value, stops'[ended'[a] + 1].at - stops'[ended'[a]].at)
    {
      assert a < |ended| ==> ended[a] + 1 < |stops|;
    }
  }

  lemma StepCounted(h: Handling, stops: seq<Event>, e: Event, created: int)
    requires AtLastStop(h, stops, e.at) && IsStop(e)
    ensures var n := |stops| - 1;
      Step(h, e, created).counted ==
        if stops != [] && EndsByHand(stops + [e], n) then h.counted + [Segment(stops[n].to.value, e.at - stops[n].at)] else h.counted
  {
    if stops != [] {
      EndsNext(stops, e, |stops| - 1);
    }
  }

  lemma StopCounts(h: Handling, stops: seq<Event>, e: Event, created: int, ended: seq<nat>) returns (ended': seq<nat>)
    requires AtLastStop(h, stops, e.at) && IsStop(e) && SegmentsOf(stops, ended, h.counted)
    ensures SegmentsOf(stops + [e], ended', Step(h, e, created).counted)
  {
    StepCounted(h, stops, e, created);
    if stops != [] && EndsByHand(stops + [e], |stops| - 1) {
      ended' := ended + [|stops| - 1];
      SegmentsGrow(stops, e, ended, h.counted);
    } else {
      ended' := ended;
      SegmentsStay(stops, e, ended, h.counted);
    }
  }

  lemma EventCounts(h: Handling, stops: seq<Event>, e: Event, created: int, ended: seq<nat>) returns (ended': seq<nat>)
    requires AtLastStop(h, stops, e.at) && !IsClosing(e) && SegmentsOf(stops, ended, h.counted)
    ensures SegmentsOf(if IsStop(e) then stops + [e] else stops, ended', Step(h, e, created).counted)
  {
    if IsStop(e) {
      ended' := StopCounts(h, stops, e, created, ended);
    } else {
      ended' := ended;
    }
  }

  lemma OpenBefore(log: seq<Event>, created: int)
    requires Open(log) && log != []
    ensures var n := |log| - 1;
      && Open(log[..n]) && !IsClosing(log[n]) && AtLastStop(Fold(log[..n], created), Stops(log[..n]), log[n].at)
      && Stops(log) == (if IsStop(log[n]) then Stops(log[..n]) + [log[n]] else Stops(log[..n]))
  {
    var n := |log| - 1;
    FoldMeasuresGaps(log[..n], created, log[n].at);
  }

  /** Before the log is closed, the counted segments are those ended by manual transfers, in order. */
  lemma {:induction false} FoldCountsSegments(log: seq<Event>, created: int) returns (ended: seq<nat>)
    requires Open(log)
    ensures SegmentsOf(Stops(log), ended, Fold(log, created).counted)
  {
    if log == [] {
      ended := [];
    } else {
      var n := |log| - 1;
      OpenBefore(log, created);
      ended := FoldCountsSegments(log[..n], created);
      ended := EventCounts(Fold(log[..n], created), Stops(log[..n]), log[n], created, ended);
    }
  }

  lemma FeedbackCounts(log: seq<Event>, created: int)
    requires EndsWithFeedback(log)
    ensures var counted, h, stops, end := Fold(log, created).counted, Fold(log[..|log| - 1], created), Stops(log), log[|log| - 1].at;
      if stops != [] && stops[|stops| - 1].to.Some?
      then counted == h.counted + [Segment(stops[|stops| - 1].to.value, end - stops[|stops| - 1].at)] else counted == h.counted
  {
    var n := |log| - 1;
    BeforeFeedback(log, created);
    assert Fold(log, created).counted == Closed(Fold(log[..n], created), log[n].at);
    if Stops(log) != [] && Stops(log)[|Stops(log)| - 1].to.Some? {
      ClosedSegment(Fold(log[..n], created), Stops(log), log[n].at);
    }
  }

  lemma RelevantEnds(log: seq<Event>)
    requires Ordered(log) && Closing(log) < |log| && IsFeedback(log[Closing(log)])
    ensures EndsWithFeedback(Relevant(log))
    ensures Relevant(log)[..|Relevant(log)| - 1] == log[..Closing(log)]
  {
  }

  lemma StopsSkip(log: seq<Event>)
    requires log != [] && !IsStop(log[|log| - 1])
    ensures Stops(log) == Stops(log[..|log| - 1])
  {
  }

  /** The counted segments are those ended by hand, and, if an answer came at some time, that of the last stop. */
  ghost predicate CountedAre(stops: seq<Event>, ended: seq<nat>, counted: seq<Segment>, answer: Option<int>) {
    if answer.Some? && stops != [] && stops[|stops| - 1].to.Some? then
      && counted != [] && SegmentsOf(stops, ended, counted[..|counted| - 1])
      && counted[|counted| - 1] == Segment(stops[|stops| - 1].to.value, answer.value - stops[|stops| - 1].at)
    else SegmentsOf(stops, ended, counted)
  }

  lemma AnswerCounted(stops: seq<Event>, ended: seq<nat>, before: seq<Segment>, after: seq<Segment>, at: int)
    requires SegmentsOf(stops, ended, before)
    requires after == if stops != [] && stops[|stops| - 1].to.Some?
                      then before + [Segment(stops[|stops| - 1].to.value, at - stops[|stops| - 1].at)] else before
    ensures CountedAre(stops, ended, after, Some(at))
  {
    if stops != [] && stops[|stops| - 1].to.Some? {
      assert after[..|after| - 1] == before;
    }
  }

  lemma CancellationCounts(log: seq<Event>, created: int)
    requires log != [] && log[|log| - 1].kind == Cancelled
    ensures Fold(log, created).counted == Fold(log[..|log| - 1], created).counted
  {
  }

  /** The log up to its closing event. */
  lemma ClosedCounted(log: seq<Event>, created: int) returns (ended: seq<nat>)
    requires log != [] && Ordered(log) && Open(log[..|log| - 1]) && IsClosing(log[|log| - 1])
    ensures var last := log[|log| - 1];
      CountedAre(Stops(log), ended, Fold(log, created).counted, if IsFeedback(last) then Some(last.at) else None)
  {
    var n := |log| - 1;
    ended := FoldCountsSegments(log[..n], created);
    StopsSkip(log);
    if IsFeedback(log[n]) {
      FeedbackCounts(log, created);
      AnswerCounted(Stops(log), ended, Fold(log[..n], created).counted, Fold(log, created).counted, log[n].at);
    } else {
      CancellationCounts(log, created);
    }
  }

  lemma RelevantCounted(log: seq<Event>, created: int) returns (ended: seq<nat>)
    requires Ordered(log)
    ensures var c := Closing(log);
      CountedAre(Stops(Relevant(log)), ended, Fold(Relevant(log), created).counted,
                 if c < |log| && IsFeedback(log[c]) then Some(log[c].at) else None)
  {
    var c := Closing(log);
    if c < |log| {
      var r := log[..c + 1];
      assert Relevant(log) == r && r[..c] == log[..c] && r[c] == log[c];
      ended := ClosedCounted(r, created);
    } else {
      ended := FoldCountsSegments(log, created);
    }
  }

  lemma CountedMeans(stops: seq<Event>, ended: seq<nat>, counted: seq<Segment>, answer: Option<int>)
    requires CountedAre(stops, ended, counted, answer)
    ensures forall a, b | 0 <= a < b < |ended| :: ended[a] < ended[b]
    ensures forall k: nat :: k in ended <==>
      k + 1 < |stops| && stops[k + 1].kind == Transferred && !stops[k + 1].auto && stops[k].to.Some?
    ensures |counted| >= |ended| && forall a | 0 <= a < |ended| ::
      && ended[a] + 1 < |stops| && stops[ended[a]].to.Some?
      && counted[a] == Segment(stops[ended[a]].to.value, stops[ended[a] + 1].at - stops[ended[a]].at)
    ensures if answer.Some? && stops != [] && stops[|stops| - 1].to.Some?
      then |counted| == |ended| + 1 && counted[|ended|] == Segment(stops[|stops| - 1].to.value, answer.value - stops[|stops| - 1].at)
      else |counted| == |ended|
  {
    assert forall k: nat :: k in ended <==> EndsByHand(stops, k);
  }

  /** The segments that the dashboard counts in any log, from the stops alone.  Stop k is counted, with its own
      department and the time until the next stop, exactly if a manual transfer follows it and it names a
      department; the segments come in the order of the stops.  Only a closing feedback adds the last stop, with
      the time until the feedback. */
  lemma CountedSegments(log: seq<Event>, created: int) returns (ended: seq<nat>)
    requires Ordered(log)
    ensures forall a, b | 0 <= a < b < |ended| :: ended[a] < ended[b]
    ensures var stops := Stops(Relevant(log));
      forall k: nat :: k in ended <==>
        k + 1 < |stops| && stops[k + 1].kind == Transferred && !stops[k + 1].auto && stops[k].to.Some?
    ensures var counted, stops := Fold(Relevant(log), created).counted, Stops(Relevant(log));
      && |counted| >= |ended|
      && forall a | 0 <= a < |ended| ::
           && ended[a] + 1 < |stops| && stops[ended[a]].to.Some?
           && counted[a] == Segment(stops[ended[a]].to.value, stops[ended[a] + 1].at - stops[ended[a]].at)
    ensures var c, counted, stops := Closing(log), Fold(Relevant(log), created).counted, Stops(Relevant(log));
      if c < |log| && IsFeedback(log[c]) && stops != [] && stops[|stops| - 1].to.Some?
      then |counted| == |ended| + 1 && counted[|ended|] == Segment(stops[|stops| - 1].to.value, log[c].at - stops[|stops| - 1].at)
      else |counted| == |ended|
  {
    var c, stops, counted := Closing(log), Stops(Relevant(log)), Fold(Relevant(log), created).counted;
    ended := RelevantCounted(log, created);
    CountedMeans(stops, ended, counted, if c < |log| && IsFeedback(log[c]) then Some(log[c].at) else None);
  }

  // ----- The export -----

  datatype Processing = Processing(
    first: Option<int>, entered: Option<int>, feedback: Option<int>,
    hrDuration: Option<int>, currentDuration: Option<int>, totalDuration: Option<int>)

  function LastFeedback(log: seq<Event>): (last: Option<int>)
    ensures last.Some? <==> exists i :: 0 <= i < |log| && IsFeedback(log[i])
  {
    if log == [] then None
    else
      var n := |log| - 1;
      if IsFeedback(log[n]) then Some(log[n].at) else LastFeedback(log[..n])
  }

  predicate WasCancelled(log: seq<Event>) {
    exists i | 0 <= i < |log| :: log[i].kind == Cancelled
  }

  /** The last time the attempt came to the current department. */
  function EnteredAt(log: seq<Event>, current: Option<nat>): Option<int> {
    if log == [] || current.None? then None
    else
      var n := |log| - 1;
      if IsStop(log[n]) && log[n].to == current then Some(log[n].at) else EnteredAt(log[..n], current)
  }

  function Exported(log: seq<Event>, created: int, current: Option<nat>, now: int): Processing {
    var first, entered, feedback := FirstDispatch(log), EnteredAt(log, current), LastFeedback(log);
    var end := if feedback.Some? then feedback else if WasCancelled(log) then None else Some(now);
    Processing(first, entered, feedback, Elapsed(Some(created), first), Elapsed(entered, end), Elapsed(first, feedback))
  }

  /** The export's search of the log of an attempt. */
  method ProcessingValues(log: seq<Event>, created: int, current: Option<nat>, now: int) returns (x: Processing)
    ensures x == Exported(log, created, current, now)
  {
    var first, feedback := FirstDispatch(log), LastFeedback(log);
    var entered: Option<int> := None;
    if current.Some? {
      for i := 0 to |log|
        invariant entered == EnteredAt(log[..i], current)
      {
        TakeNext(log, i);
        if IsStop(log[i]) && log[i].to == current {
          entered := Some(log[i].at);
        }
      }
      assert log[..|log|] == log;
    }
    var end: Option<int>;
    if feedback.Some? {
      end := feedback;
    } else if WasCancelled(log) {
      end := None;
    } else {
      end := Some(now);
    }
    x := Processing(first, entered, feedback, Elapsed(Some(created), first), Elapsed(entered, end), Elapsed(first, feedback));
  }

  /** The last feedback. */
  lemma {:induction false} LastFeedbackAt(log: seq<Event>) returns (i: nat)
    requires LastFeedback(log).Some?
    ensures i < |log| && IsFeedback(log[i]) && LastFeedback(log) == Some(log[i].at)
    ensures forall k | i < k < |log| :: !IsFeedback(log[k])
  {
    i := |log| - 1;
    if !IsFeedback(log[i]) {
      var n := i;
      i := LastFeedbackAt(log[..n]);
      assert forall k | i < k < n :: log[k] == log[..n][k];
    }
  }

  /** The last time that the attempt came to a department. */
  lemma {:induction false} LastEntryAt(log: seq<Event>, current: nat) returns (i: nat)
    requires EnteredAt(log, Some(current)).Some?
    ensures i < |log| && IsStop(log[i]) && log[i].to == Some(current) && EnteredAt(log, Some(current)) == Some(log[i].at)
    ensures forall k | i < k < |log| :: !(IsStop(log[k]) && log[k].to == Some(current))
  {
    i := |log| - 1;
    if !(IsStop(log[i]) && log[i].to == Some(current)) {
      var n := i;
      i := LastEntryAt(log[..n], current);
      assert forall k | i < k < n :: log[k] == log[..n][k];
    }
  }

  lemma {:induction false} NoEntry(log: seq<Event>, current: nat)
    requires EnteredAt(log, Some(current)).None?
    ensures forall k | 0 <= k < |log| :: !(IsStop(log[k]) && log[k].to == Some(current))
  {
    if log != [] {
      var n := |log| - 1;
      NoEntry(log[..n], current);
      assert forall k | 0 <= k < n :: log[k] == log[..n][k];
    }
  }

  /** The three durations of the export are differences of the times it shows: missing if a time is missing or they
      are in the wrong order.  The time in the department ends with the feedback, else now, unless the attempt
      was cancelled. */
  lemma ExportedDurations(log: seq<Event>, created: int, current: Option<nat>, now: int)
    ensures var x := Exported(log, created, current, now);
      && x.first == FirstDispatch(log) && x.feedback == LastFeedback(log) && x.entered == EnteredAt(log, current)
      && (x.hrDuration.Some? <==> x.first.Some? && created <= x.first.value)
      && (x.hrDuration.Some? ==> x.hrDuration.value == x.first.value - created)
      && (x.totalDuration.Some? <==> x.first.Some? && x.feedback.Some? && x.first.value <= x.feedback.value)
      && (x.totalDuration.Some? ==> x.totalDuration.value == x.feedback.value - x.first.value)
      && (x.feedback.Some? ==> (x.currentDuration.Some? <==> x.entered.Some? && x.entered.value <= x.feedback.value))
      && (x.feedback.Some? && x.currentDuration.Some? ==> x.currentDuration.value == x.feedback.value - x.entered.value)
      && (x.feedback.None? && (exists i | 0 <= i < |log| :: log[i].kind == Cancelled) ==> x.currentDuration.None?)
      && (x.feedback.None? && !(exists i | 0 <= i < |log| :: log[i].kind == Cancelled) ==>
            (x.currentDuration.Some? <==> x.entered.Some? && x.entered.value <= now)
            && (x.currentDuration.Some? ==> x.currentDuration.value == now - x.entered.value))
  {
  }

  // ----- Dashboard and export agree -----

  lemma {:induction false} EnteredAtLastStop(log: seq<Event>, current: Option<nat>)
    requires Stops(log) != [] && current.Some? && Stops(log)[|Stops(log)| - 1].to == current
    ensures EnteredAt(log, current) == Some(Stops(log)[|Stops(log)| - 1].at)
  {
    var n := |log| - 1;
    if !IsStop(log[n]) {
      EnteredAtLastStop(log[..n], current);
    }
  }

  /** After position c, nothing but other events and cancellations. */
  ghost predicate QuietAfter(log: seq<Event>, c: nat) {
    forall i | c < i < |log| :: !IsStop(log[i]) && !IsFeedback(log[i])
  }

  lemma {:induction false} QuietStops(log: seq<Event>, c: nat)
    requires c < |log| && QuietAfter(log, c)
    ensures Stops(log) == Stops(log[..c + 1])
  {
    var n := |log| - 1;
    if c < n {
      assert log[..n][..c + 1] == log[..c + 1];
      QuietStops(log[..n], c);
    } else {
      assert log[..c + 1] == log;
    }
  }

  lemma {:induction false} QuietFirst(log: seq<Event>, c: nat)
    requires c < |log| && QuietAfter(log, c)
    ensures FirstDispatch(log) == FirstDispatch(log[..c + 1])
  {
    var n := |log| - 1;
    if c < n {
      assert log[..n][..c + 1] == log[..c + 1];
      QuietFirst(log[..n], c);
    } else {
      assert log[..c + 1] == log;
    }
  }

  lemma {:induction false} QuietLast(log: seq<Event>, c: nat)
    requires c < |log| && QuietAfter(log, c)
    ensures LastFeedback(log) == LastFeedback(log[..c + 1])
  {
    var n := |log| - 1;
    if c < n {
      assert log[..n][..c + 1] == log[..c + 1];
      QuietLast(log[..n], c);
    } else {
      assert log[..c + 1] == log;
    }
  }

  /** A feedback closes the log, and nothing but other events and cancellations follows. */
  ghost predicate FeedbackEnds(log: seq<Event>) {
    Ordered(log) && Closing(log) < |log| && IsFeedback(log[Closing(log)]) && QuietAfter(log, Closing(log))
  }

  lemma DatesAgree(log: seq<Event>, created: int, current: Option<nat>, now: int)
    requires FeedbackEnds(log)
    ensures var h, x := Fold(Relevant(log), created), Exported(log, created, current, now);
      x.first == h.first && x.hrDuration == h.hr && x.totalDuration == h.total
  {
    var c, r := Closing(log), Relevant(log);
    QuietFirst(log, c);
    QuietLast(log, c);
    RelevantEnds(log);
    BeforeFeedback(r, created);
    FoldKeepsFirstDispatch(log[..c], created);
    assert FirstDispatch(r) == FirstDispatch(log[..c]);
  }

  lemma LastFeedbackCloses(log: seq<Event>)
    requires FeedbackEnds(log)
    ensures LastFeedback(log) == Some(log[Closing(log)].at)
  {
    var c := Closing(log);
    QuietLast(log, c);
    TakeNext(log, c);
  }

  lemma StopsBeforeClosing(log: seq<Event>)
    requires FeedbackEnds(log) && Stops(log) != []
    ensures Stops(log)[|Stops(log)| - 1].at <= log[Closing(log)].at
  {
    var c := Closing(log);
    QuietStops(log, c);
    StopsStayOrdered(log[..c + 1], log[c].at);
  }

  lemma StopsStayOrdered(log: seq<Event>, at: int)
    requires Ordered(log) && Stops(log) != [] && log[|log| - 1].at <= at
    ensures Stops(log)[|Stops(log)| - 1].at <= at
  {
    StopsAreOrdered(log, at);
  }

  lemma ExportedCurrent(log: seq<Event>, created: int, current: nat, now: int, entered: int, feedback: int)
    requires EnteredAt(log, Some(current)) == Some(entered) && LastFeedback(log) == Some(feedback) && entered <= feedback
    ensures Exported(log, created, Some(current), now).currentDuration == Some(feedback - entered)
  {
  }

  /** The export's time in the department of the last stop. */
  lemma ExportedSegment(log: seq<Event>, created: int, current: nat, now: int)
    requires FeedbackEnds(log) && Stops(log) != [] && Stops(log)[|Stops(log)| - 1].to == Some(current)
    ensures Exported(log, created, Some(current), now).currentDuration
         == Some(log[Closing(log)].at - Stops(log)[|Stops(log)| - 1].at)
  {
    EnteredAtLastStop(log, Some(current));
    LastFeedbackCloses(log);
    StopsBeforeClosing(log);
    ExportedCurrent(log, created, current, now, Stops(log)[|Stops(log)| - 1].at, log[Closing(log)].at);
  }

  /** The dashboard's last segment. */
  lemma CountedSegment(log: seq<Event>, created: int, current: nat)
    requires FeedbackEnds(log) && Stops(log) != [] && Stops(log)[|Stops(log)| - 1].to == Some(current)
    ensures var counted := Fold(Relevant(log), created).counted;
      counted != [] && counted[|counted| - 1] == Segment(current, log[Closing(log)].at - Stops(log)[|Stops(log)| - 1].at)
  {
    var c := Closing(log);
    QuietStops(log, c);
    var ended := RelevantCounted(log, created);
    assert Stops(Relevant(log)) == Stops(log);
  }

  /** If the feedback ends the handling and the current department is the last destination, the two
      computations give the same dispatch time, hiring-team time and total, and the export's time in the
      current department is the last segment of the dashboard. */
  lemma DashboardAndExportAgree(log: seq<Event>, created: int, current: nat, now: int)
    requires Ordered(log) && Closing(log) < |log| && IsFeedback(log[Closing(log)]) && QuietAfter(log, Closing(log))
    requires Stops(log) != [] && Stops(log)[|Stops(log)| - 1].to == Some(current)
    ensures var h, x := Fold(Relevant(log), created), Exported(log, created, Some(current), now);
      && x.first == h.first && x.hrDuration == h.hr && x.totalDuration == h.total
      && x.currentDuration.Some? && h.counted != [] && h.counted[|h.counted| - 1] == Segment(current, x.currentDuration.value)
  {
    DatesAgree(log, created, Some(current), now);
    ExportedSegment(log, created, current, now);
    CountedSegment(log, created, current);
  }

  /** While the attempt is open before its last destination, both report the same age. */
  lemma OpenSegmentsAgree(log: seq<Event>, created: int, current: nat, now: int)
    requires Open(log) && Stops(log) != [] && log[|log| - 1].at <= now
    requires Stops(log)[|Stops(log)| - 1].to == Some(current)
    ensures var x := Exported(log, created, Some(current), now);
      x.currentDuration.Some? && Pending(Fold(Relevant(log), created), true, now) == Some(Segment(current, x.currentDuration.value))
  {
    FoldMeasuresGaps(log, created, now);
    EnteredAtLastStop(log, Some(current));
  }

  /** The dashboard stops at the first feedback or cancellation, the export looks at the whole log.  Their
      totals agree exactly when there is no dispatch or no feedback at all, when the last feedback precedes the
      first dispatch, or when the log is closed by a feedback after the first dispatch and no later feedback
      has another time. */
  lemma TotalsAgreeIff(log: seq<Event>, created: int, current: Option<nat>, now: int)
    requires Ordered(log)
    ensures var first, last, c := FirstDispatch(log), LastFeedback(log), Closing(log);
      Fold(Relevant(log), created).total == Exported(log, created, current, now).totalDuration <==>
        || first.None? || last.None? || last.value < first.value
        || (c < |log| && IsFeedback(log[c]) && FirstDispatch(log[..c]).Some? && last.value == log[c].at)
  {
    var first, last, c := FirstDispatch(log), LastFeedback(log), Closing(log);
    FoldMeasuresTotal(log, created);
    if c < |log| && IsFeedback(log[c]) {
      LastFeedbackIsLate(log, c);
      FirstDispatchOfPrefix(log, c);
    }
    if first.None? && c < |log| {
      FirstDispatchOfPrefix(log, c);
    }
  }

  /** Before the closing event the dashboard has the first dispatch and no total. */
  lemma BeforeClosing(log: seq<Event>, created: int)
    requires Ordered(log)
    ensures var before := log[..Closing(log)];
      Fold(before, created).total.None? && Fold(before, created).first == FirstDispatch(before)
  {
    var c := Closing(log);
    FoldMeasuresGaps(log[..c], created, if c > 0 then log[c - 1].at else 0);
    FoldKeepsFirstDispatch(log[..c], created);
  }

  /** The dashboard's total: the closing feedback minus the first dispatch before it. */
  lemma FoldMeasuresTotal(log: seq<Event>, created: int)
    requires Ordered(log)
    ensures var c := Closing(log);
      Fold(Relevant(log), created).total ==
        if c < |log| && IsFeedback(log[c]) then Elapsed(FirstDispatch(log[..c]), Some(log[c].at)) else None
  {
    var c := Closing(log);
    BeforeClosing(log, created);
    if c < |log| {
      TakeNext(log, c);
      assert Relevant(log)[..c] == log[..c];
    } else {
      assert log[..c] == log;
    }
  }

  lemma {:induction false} LastFeedbackIsLate(log: seq<Event>, c: nat)
    requires Ordered(log) && c < |log| && IsFeedback(log[c])
    ensures LastFeedback(log).Some? && log[c].at <= LastFeedback(log).value
  {
    if !IsFeedback(log[|log| - 1]) {
      LastFeedbackIsLate(log[..|log| - 1], c);
    }
  }

  /** The event that the first dispatch time comes from. */
  lemma {:induction false} FirstDispatchAt(log: seq<Event>) returns (i: nat)
    requires FirstDispatch(log).Some?
    ensures i < |log| && log[i].kind == Dispatched && log[i].at == FirstDispatch(log).value
    ensures forall k | 0 <= k < i :: log[k].kind != Dispatched
  {
    var n := |log| - 1;
    if FirstDispatch(log[..n]).Some? {
      i := FirstDispatchAt(log[..n]);
    } else {
      i := n;
    }
    assert forall k | 0 <= k < n :: log[k] == log[..n][k];
  }

  lemma {:induction false} PrefixDispatchStays(log: seq<Event>, c: nat)
    requires c <= |log| && FirstDispatch(log[..c]).Some?
    ensures FirstDispatch(log) == FirstDispatch(log[..c])
  {
    var n := |log| - 1;
    if c <= n {
      assert log[..n][..c] == log[..c];
      PrefixDispatchStays(log[..n], c);
    } else {
      assert log[..c] == log;
    }
  }

  lemma FirstDispatchOfPrefix(log: seq<Event>, c: nat)
    requires Ordered(log) && c < |log|
    ensures FirstDispatch(log[..c]).Some? ==> FirstDispatch(log) == FirstDispatch(log[..c]) && FirstDispatch(log).value <= log[c].at
    ensures FirstDispatch(log[..c]).None? && FirstDispatch(log).Some? ==> log[c].at <= FirstDispatch(log).value
  {
    if FirstDispatch(log[..c]).Some? {
      PrefixDispatchStays(log, c);
      var i := FirstDispatchAt(log[..c]);
      assert log[i].at <= log[c].at;
    } else if FirstDispatch(log).Some? {
      var i := FirstDispatchAt(log);
      assert forall k | 0 <= k < c :: log[..c][k] == log[k];
      assert log[c].at <= log[i].at;
    }
  }

  /** Where the totals differ: a feedback after a cancellation, and a second feedback at another time. */
  lemma TotalsDifferAfterClosing(dispatch: Event, close: Event, feedback: Event, created: int, current: Option<nat>, now: int)
    requires dispatch.kind == Dispatched && IsClosing(close) && IsFeedback(feedback)
    requires dispatch.at <= close.at < feedback.at
    ensures var log := [dispatch, close, feedback];
      Ordered(log) && Fold(Relevant(log), created).total != Exported(log, created, current, now).totalDuration
  {
    var log := [dispatch, close, feedback];
    assert log[..2] == [dispatch, close] && log[..1] == [dispatch];
    assert log[..2][..1] == [dispatch];
    assert !IsClosing(log[0]) && IsClosing(log[1]);
    assert Closing(log) == 1;
    assert FirstDispatch([dispatch]) == Some(dispatch.at);
    TotalsAgreeIff(log, created, current, now);
  }
}
