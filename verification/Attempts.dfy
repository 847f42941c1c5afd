/** The assignment attempts of one candidate, and the actions that write their event logs. */
module Attempts {
  import opened Wrappers
  import opened HandlingTime

  datatype Source = Rule | Ai | Manual

  datatype Status = PendingReview | PendingDispatch | Dispatched | Passed | Rejected | Cancelled

  datatype Attempt = Attempt(
    source: Source, status: Status, current: nat, created: int, feedback: Option<int>, log: seq<Event>)

  datatype Error = StateChanged | Refused

  /** The times of a creation: of the attempt, and of its one or three events. */
  datatype Times = Times(created: int, noted: int, sent: int, forwarded: int)

  predicate Unfeedbacked(a: Attempt) {
    a.status == PendingReview || a.status == PendingDispatch || a.status == Status.Dispatched
  }

  // ----- What one action makes of an attempt -----

  /** A new attempt.  If it goes straight to a third-level department, it is dispatched to the second level and
      forwarded by the system. */
  function Started(source: Source, review: bool, initial: nat, current: nat, t: Times): Attempt {
    var log := [Event(Other, t.noted, None, source != Source.Manual)];
    if current != initial then
      Attempt(source, Status.Dispatched, current, t.created, None,
              log + [Event(Kind.Dispatched, t.sent, Some(initial), source == Ai), Event(Transferred, t.forwarded, Some(current), true)])
    else Attempt(source, if review then PendingReview else PendingDispatch, current, t.created, None, log)
  }

  function Confirmed(a: Attempt, at: int): Result<Attempt, Error> {
    if a.status != PendingReview then Err(StateChanged)
    else Ok(a.(status := PendingDispatch, log := a.log + [Event(Other, at, None, false)]))
  }

  function Sent(a: Attempt, at: int): Result<Attempt, Error> {
    if a.status != PendingDispatch then Err(StateChanged)
    else Ok(a.(status := Status.Dispatched, log := a.log + [Event(Kind.Dispatched, at, Some(a.current), false)]))
  }

  /** A transfer by someone who saw the attempt before department seen. */
  function Moved(a: Attempt, seen: nat, target: nat, allowed: bool, auto: bool, at: int): Result<Attempt, Error> {
    if a.current != seen || a.status != Status.Dispatched then Err(StateChanged)
    else if !allowed || target == a.current then Err(Refused)
    else Ok(a.(current := target, log := a.log + [Event(Transferred, at, Some(target), auto)]))
  }

  function Answered(a: Attempt, seen: nat, passed: bool, allowed: bool, at: int): Result<Attempt, Error> {
    if a.current != seen || a.feedback.Some? || a.status != Status.Dispatched then Err(StateChanged)
    else if !allowed then Err(Refused)
    else Ok(a.(status := if passed then Status.Passed else Status.Rejected, feedback := Some(at),
               log := a.log + [Event(if passed then Kind.Passed else Kind.Rejected, at, None, false)]))
  }

  function Withdrawn(a: Attempt, auto: bool, at: int): Attempt {
    a.(status := Status.Cancelled, log := a.log + [Event(Kind.Cancelled, at, None, auto)])
  }

  /** The administrator's cancellation, only before the dispatch. */
  function Dropped(a: Attempt, at: int): Result<Attempt, Error> {
    if a.status != PendingReview && a.status != PendingDispatch then Err(StateChanged) else Ok(Withdrawn(a, false, at))
  }

  /** The system's cancellation of what has no feedback yet, of all sources or only some. */
  function SweptOne(a: Attempt, sources: Option<set<Source>>, at: int): Attempt {
    if Unfeedbacked(a) && (sources.Some? ==> a.source in sources.value) then Withdrawn(a, true, at) else a
  }

  function Swept(attempts: seq<Attempt>, sources: Option<set<Source>>, at: int): (r: seq<Attempt>)
    ensures |r| == |attempts| && forall i | 0 <= i < |r| :: r[i] == SweptOne(attempts[i], sources, at)
  {
    if attempts == [] then []
    else
      var n := |attempts| - 1;
      Swept(attempts[..n], sources, at) + [SweptOne(attempts[n], sources, at)]
  }

  /** All attempts after an action on one of them. */
  function With(attempts: seq<Attempt>, i: nat, r: Result<Attempt, Error>): seq<Attempt>
    requires i < |attempts|
  {
    match r
    case Ok(a) => attempts[i := a]
    case Err(_) => attempts
  }

  /** A positive feedback also cancels the other attempts that have none. */
  function AfterFeedback(attempts: seq<Attempt>, i: nat, r: Result<Attempt, Error>, passed: bool, at: int): seq<Attempt>
    requires i < |attempts|
  {
    if r.Ok? && passed then Swept(With(attempts, i, r), None, at) else With(attempts, i, r)
  }

  function Failure(r: Result<Attempt, Error>): Option<Error> {
    match r
    case Ok(_) => None
    case Err(error) => Some(error)
  }

  // ----- The actions -----

  class Workflow {
    var attempts: seq<Attempt>

    constructor ()
      ensures attempts == []
    {
      attempts := [];
    }

    method Record(i: nat, e: Event)
      requires i < |attempts|
      modifies this
      ensures attempts == old(attempts)[i := old(attempts)[i].(log := old(attempts)[i].log + [e])]
    {
      attempts := attempts[i := attempts[i].(log := attempts[i].log + [e])];
    }

    method Create(source: Source, review: bool, initial: nat, current: nat, t: Times) returns (id: nat)
      requires review ==> current == initial
      modifies this
      ensures id == |old(attempts)| && attempts == old(attempts) + [Started(source, review, initial, current, t)]
      ensures var a := attempts[id];
        && a.source == source && a.current == current && a.created == t.created && a.feedback.None?
        && a.status == (if review then PendingReview else if current == initial then PendingDispatch else Status.Dispatched)
        && |a.log| == (if current == initial then 1 else 3) && a.log[0].kind == Other && a.log[0].at == t.noted
        && (current != initial ==>
              && a.log[1].kind == Kind.Dispatched && a.log[1].at == t.sent && a.log[1].to == Some(initial)
              && a.log[2] == Event(Transferred, t.forwarded, Some(current), true))
    {
      var direct := current != initial;
      var status := if review then PendingReview else if direct then Status.Dispatched else PendingDispatch;
      id := |attempts|;
      attempts := attempts + [Attempt(source, status, current, t.created, None, [])];
      Record(id, Event(Other, t.noted, None, source != Source.Manual));
      if direct {
        Record(id, Event(Kind.Dispatched, t.sent, Some(initial), source == Ai));
        Record(id, Event(Transferred, t.forwarded, Some(current), true));
      }
      assert attempts[id].log == Started(source, review, initial, current, t).log;
    }

    method Confirm(i: nat, at: int) returns (error: Option<Error>)
      requires i < |attempts|
      modifies this
      ensures var r := Confirmed(old(attempts)[i], at); attempts == With(old(attempts), i, r) && error == Failure(r)
      ensures error == if old(attempts)[i].status == PendingReview then None else Some(StateChanged)
      ensures var a := old(attempts)[i];
        attempts == if error.Some? then old(attempts) else
                      old(attempts)[i := a.(status := PendingDispatch, log := a.log + [Event(Other, at, None, false)])]
    {
      if attempts[i].status != PendingReview {
        return Some(StateChanged);
      }
      attempts := attempts[i := attempts[i].(status := PendingDispatch)];
      Record(i, Event(Other, at, None, false));
      error := None;
    }

    method Dispatch(i: nat, at: int) returns (error: Option<Error>)
      requires i < |attempts|
      modifies this
      ensures var r := Sent(old(attempts)[i], at); attempts == With(old(attempts), i, r) && error == Failure(r)
      ensures error == if old(attempts)[i].status == PendingDispatch then None else Some(StateChanged)
      ensures var a := old(attempts)[i];
        attempts == if error.Some? then old(attempts) else
                      old(attempts)[i := a.(status := Status.Dispatched,
                                            log := a.log + [Event(Kind.Dispatched, at, Some(a.current), false)])]
    {
      if attempts[i].status != PendingDispatch {
        return Some(StateChanged);
      }
      attempts := attempts[i := attempts[i].(status := Status.Dispatched)];
      Record(i, Event(Kind.Dispatched, at, Some(attempts[i].current), false));
      error := None;
    }

    method Transfer(i: nat, seen: nat, target: nat, allowed: bool, auto: bool, at: int) returns (error: Option<Error>)
      requires i < |attempts|
      modifies this
      ensures var r := Moved(old(attempts)[i], seen, target, allowed, auto, at);
        attempts == With(old(attempts), i, r) && error == Failure(r)
      ensures var a := old(attempts)[i];
        && (error == Some(StateChanged) <==> a.current != seen || a.status != Status.Dispatched)
        && (error.None? <==> a.current == seen && a.status == Status.Dispatched && allowed && target != a.current)
        && attempts == if error.Some? then old(attempts) else
                         old(attempts)[i := a.(current := target, log := a.log + [Event(Transferred, at, Some(target), auto)])]
    {
      if attempts[i].current != seen {
        return Some(StateChanged);
      }
      if attempts[i].status != Status.Dispatched {
        return Some(StateChanged);
      }
      if !allowed {
        return Some(Refused);
      }
      if target == attempts[i].current {
        return Some(Refused);
      }
      attempts := attempts[i := attempts[i].(current := target)];
      Record(i, Event(Transferred, at, Some(target), auto));
      error := None;
    }

    method CancelUnfeedbacked(sources: Option<set<Source>>, at: int)
      modifies this
      ensures attempts == Swept(old(attempts), sources, at)
      ensures |attempts| == |old(attempts)| && forall i | 0 <= i < |attempts| ::
        var a := old(attempts)[i];
        attempts[i] == if a.status in {PendingReview, PendingDispatch, Status.Dispatched} && (sources.None? || a.source in sources.value)
                       then a.(status := Status.Cancelled, log := a.log + [Event(Kind.Cancelled, at, None, true)]) else a
    {
      var i := 0;
      while i < |attempts|
        invariant i <= |attempts| == |old(attempts)|
        invariant forall j | 0 <= j < |attempts| ::
          attempts[j] == if j < i then SweptOne(old(attempts)[j], sources, at) else old(attempts)[j]
      {
        var a := attempts[i];
        if Unfeedbacked(a) && (sources.None? || a.source in sources.value) {
          attempts := attempts[i := a.(status := Status.Cancelled)];
          Record(i, Event(Kind.Cancelled, at, None, true));
        }
        i := i + 1;
      }
    }

    method SubmitFeedback(i: nat, seen: nat, passed: bool, allowed: bool, at: int) returns (error: Option<Error>)
      requires i < |attempts|
      modifies this
      ensures var r := Answered(old(attempts)[i], seen, passed, allowed, at);
        attempts == AfterFeedback(old(attempts), i, r, passed, at) && error == Failure(r)
      ensures var a := old(attempts)[i];
        && (error == Some(StateChanged) <==> a.current != seen || a.feedback.Some? || a.status != Status.Dispatched)
        && (error.None? <==> a.current == seen && a.feedback.None? && a.status == Status.Dispatched && allowed)
      ensures error.Some? ==> attempts == old(attempts)
      ensures error.None? ==> |attempts| == |old(attempts)| && forall k | 0 <= k < |attempts| ::
        var a := old(attempts)[k];
        attempts[k] ==
          if k == i then a.(status := if passed then Status.Passed else Status.Rejected, feedback := Some(at),
                            log := a.log + [Event(if passed then Kind.Passed else Kind.Rejected, at, None, false)])
          else if passed && a.status in {PendingReview, PendingDispatch, Status.Dispatched}
          then a.(status := Status.Cancelled, log := a.log + [Event(Kind.Cancelled, at, None, true)]) else a
    {
      var a := attempts[i];
      if a.current != seen || a.feedback.Some? || a.status != Status.Dispatched {
        return Some(StateChanged);
      }
      if !allowed {
        return Some(Refused);
      }
      error := None;
      a := a.(feedback := Some(at));
      if passed {
        attempts := attempts[i := a.(status := Status.Passed)];
        Record(i, Event(Kind.Passed, at, None, false));
        CancelUnfeedbacked(None, at);
        return;
      }
      attempts := attempts[i := a.(status := Status.Rejected)];
      Record(i, Event(Kind.Rejected, at, None, false));
    }

    method Cancel(i: nat, at: int) returns (error: Option<Error>)
      requires i < |attempts|
      modifies this
      ensures var r := Dropped(old(attempts)[i], at); attempts == With(old(attempts), i, r) && error == Failure(r)
      ensures error == if old(attempts)[i].status in {PendingReview, PendingDispatch} then None else Some(StateChanged)
      ensures var a := old(attempts)[i];
        attempts == if error.Some? then old(attempts) else
                      old(attempts)[i := a.(status := Status.Cancelled, log := a.log + [Event(Kind.Cancelled, at, None, false)])]
    {
      if attempts[i].status != PendingReview && attempts[i].status != PendingDispatch {
        return Some(StateChanged);
      }
      attempts := attempts[i := attempts[i].(status := Status.Cancelled)];
      Record(i, Event(Kind.Cancelled, at, None, false));
      error := None;
    }
  }
}
