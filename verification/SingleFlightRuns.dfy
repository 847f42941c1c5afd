/** Any number of concurrent Evaluate calls over one lease registry. */
module SingleFlightRuns {
  import opened Wrappers
  import opened SingleFlight

  datatype Role = Leader | Waiter

  /** Where a call of Evaluate stands after its validation. */
  datatype Call =
    | Leading(key: Key, lease: nat)
    | Waiting(key: Key, lease: nat)
    | Returned(key: Key, lease: nat, role: Role, r: Outcome)
    | Abandoned(key: Key, lease: nat)

  /** `leaders` records, for each lease, the call that made it; `clock` is the latest time read. */
  datatype State = State(reg: Registry, calls: map<nat, Call>, leaders: seq<nat>, clock: int)

  datatype Step =
    | Enter(id: nat, key: Key, created: int, now: int)
    | Finish(id: nat, r: Outcome)
    | Receive(id: nat)
    | Abandon(id: nat)

  ghost predicate Enabled(s: State, step: Step) {
    && WellFormed(s.reg)
    && match step
       case Enter(id, key, created, now) => id !in s.calls && s.clock <= created <= now
       case Finish(id, r) => id in s.calls && s.calls[id].Leading? && s.calls[id].lease < |s.reg.all|
       case Receive(id) =>
         && id in s.calls && s.calls[id].Waiting? && s.calls[id].lease < |s.reg.all|
         && s.reg.all[s.calls[id].lease].closed
       case Abandon(id) => id in s.calls && s.calls[id].Waiting?
  }

  ghost function Apply(s: State, step: Step): State
    requires Enabled(s, step)
  {
    match step
    case Enter(id, key, created, now) =>
      var (reg, lease, leader) := Entered(s.reg, key, created, now);
      State(reg, s.calls[id := if leader then Leading(key, lease) else Waiting(key, lease)],
            if leader then s.leaders + [id] else s.leaders, now)
    case Finish(id, r) =>
      var call := s.calls[id];
      s.(reg := Finished(s.reg, call.lease, r), calls := s.calls[id := Returned(call.key, call.lease, Leader, r)])
    case Receive(id) =>
      var call := s.calls[id];
      s.(calls := s.calls[id := Returned(call.key, call.lease, Waiter, s.reg.all[call.lease].result.value)])
    case Abandon(id) =>
      s.(calls := s.calls[id := Abandoned(s.calls[id].key, s.calls[id].lease)])
  }

  function Initial(clock: int): State {
    State(Registry([], map[]), map[], [], clock)
  }

  // ----- The invariant -----

  ghost predicate Stored(reg: Registry, i: nat) {
    i < |reg.all| && reg.all[i].key in reg.leases && reg.leases[reg.all[i].key] == i
  }

  /** An open lease is stored; a stored finished lease succeeded; a success leaves the map only
      when it is more than six hours old. */
  ghost predicate LeaseOk(reg: Registry, clock: int, i: nat)
    requires WellFormed(reg) && i < |reg.all|
  {
    && reg.all[i].created <= clock
    && (!reg.all[i].closed ==> Stored(reg, i))
    && (reg.all[i].closed && Stored(reg, i) ==> reg.all[i].result.value.Ok?)
    && (reg.all[i].closed && reg.all[i].result.value.Ok? && !Stored(reg, i) ==> reg.all[i].created + SIX_HOURS < clock)
  }

  ghost predicate LeaseInv(reg: Registry, clock: int) {
    WellFormed(reg) && forall i | 0 <= i < |reg.all| :: LeaseOk(reg, clock, i)
  }

  /** Of two leases of one key the earlier is finished, and a success is more than six hours older. */
  ghost predicate Apart(reg: Registry, i: nat, j: nat)
    requires WellFormed(reg) && i < |reg.all| && j < |reg.all|
  {
    reg.all[i].key == reg.all[j].key ==>
      reg.all[i].closed && (reg.all[i].result.value.Ok? ==> reg.all[i].created + SIX_HOURS < reg.all[j].created)
  }

  ghost predicate Separated(reg: Registry)
    requires WellFormed(reg)
  {
    forall i, j | 0 <= i < j < |reg.all| :: Apart(reg, i, j)
  }

  ghost predicate CallInv(s: State, call: Call) {
    && call.lease < |s.reg.all| && s.reg.all[call.lease].key == call.key
    && (call.Leading? ==> !s.reg.all[call.lease].closed)
    && (call.Returned? ==> s.reg.all[call.lease].result == Some(call.r))
  }

  ghost predicate Leads(call: Call) {
    call.Leading? || (call.Returned? && call.role == Leader)
  }

  /** Every lease has exactly one leader, which runs exactly as long as the lease is open. */
  ghost predicate LeaderInv(s: State) {
    && |s.leaders| == |s.reg.all|
    && (forall i | 0 <= i < |s.leaders| ::
          && s.leaders[i] in s.calls && Leads(s.calls[s.leaders[i]]) && s.calls[s.leaders[i]].lease == i
          && (!s.reg.all[i].closed ==> s.calls[s.leaders[i]].Leading?))
    && (forall id | id in s.calls && Leads(s.calls[id]) ::
          s.calls[id].lease < |s.leaders| && s.leaders[s.calls[id].lease] == id)
  }

  ghost predicate Inv(s: State) {
    && LeaseInv(s.reg, s.clock)
    && Separated(s.reg)
    && (forall id | id in s.calls :: CallInv(s, s.calls[id]))
    && LeaderInv(s)
  }

  lemma EnterKeepsLeases(reg: Registry, clock: int, key: Key, created: int, now: int)
    requires LeaseInv(reg, clock) && clock <= created <= now && key !in reg.leases
    ensures LeaseInv(Entered(reg, key, created, now).0, now)
  {
    var added := Registry(reg.all + [Lease(key, created, false, None)], reg.leases[key := |reg.all|]);
    var reg' := Entered(reg, key, created, now).0;
    forall i | 0 <= i < |reg'.all| ensures LeaseOk(reg', now, i) {
      if i < |reg.all| {
        assert LeaseOk(reg, clock, i) && reg'.all[i] == reg.all[i];
        assert Stored(added, i) == Stored(reg, i);
        assert Stored(reg', i) <==> Stored(added, i) && !(|added.leases| > CAPACITY && Evictable(added, reg.all[i].key, now));
      }
    }
  }

  lemma EnterKeepsSeparation(reg: Registry, clock: int, key: Key, created: int, now: int)
    requires LeaseInv(reg, clock) && Separated(reg) && clock <= created <= now && key !in reg.leases
    ensures WellFormed(Entered(reg, key, created, now).0) && Separated(Entered(reg, key, created, now).0)
  {
    var reg' := Entered(reg, key, created, now).0;
    forall i, j | 0 <= i < j < |reg'.all| ensures Apart(reg', i, j) {
      assert LeaseOk(reg, clock, i) && reg'.all[i] == reg.all[i];
      if j < |reg.all| {
        assert Apart(reg, i, j) && reg'.all[j] == reg.all[j];
      } else if reg.all[i].key == key {
        assert !Stored(reg, i);
      }
    }
  }

  lemma FinishKeepsLeases(reg: Registry, clock: int, lease: nat, r: Outcome)
    requires LeaseInv(reg, clock) && Separated(reg) && lease < |reg.all| && !reg.all[lease].closed
    ensures LeaseInv(Finished(reg, lease, r), clock) && Separated(Finished(reg, lease, r))
  {
    var reg' := Finished(reg, lease, r);
    assert LeaseOk(reg, clock, lease);
    forall i | 0 <= i < |reg'.all| ensures LeaseOk(reg', clock, i) {
      assert LeaseOk(reg, clock, i);
      if i != lease {
        assert reg'.all[i] == reg.all[i] && Stored(reg', i) == Stored(reg, i);
      }
    }
    forall i, j | 0 <= i < j < |reg'.all| ensures Apart(reg', i, j) {
      assert Apart(reg, i, j);
    }
  }

  lemma LeadKeepsCalls(s: State, step: Step)
    requires Inv(s) && Enabled(s, step) && step.Enter? && step.key !in s.reg.leases
    ensures forall id | id in Apply(s, step).calls :: CallInv(Apply(s, step), Apply(s, step).calls[id])
  {
    var s' := Apply(s, step);
    forall id | id in s'.calls ensures CallInv(s', s'.calls[id]) {
      assert id in s.calls ==> CallInv(s, s.calls[id]);
    }
  }

  lemma LeadKeepsLeaders(s: State, step: Step)
    requires Inv(s) && Enabled(s, step) && step.Enter? && step.key !in s.reg.leases
    ensures LeaderInv(Apply(s, step))
  {
    var s' := Apply(s, step);
    assert s'.leaders == s.leaders + [step.id] && s'.calls == s.calls[step.id := Leading(step.key, |s.reg.all|)];
    assert s'.reg.all == s.reg.all + [Lease(step.key, step.created, false, None)];
  }

  lemma JoinKeeps(s: State, step: Step)
    requires Inv(s) && Enabled(s, step) && step.Enter? && step.key in s.reg.leases
    ensures Inv(Apply(s, step))
  {
    var s' := Apply(s, step);
    assert s' == s.(calls := s.calls[step.id := Waiting(step.key, s.reg.leases[step.key])], clock := step.now);
    forall i | 0 <= i < |s'.reg.all| ensures LeaseOk(s'.reg, s'.clock, i) {
      assert LeaseOk(s.reg, s.clock, i);
    }
    forall id | id in s'.calls ensures CallInv(s', s'.calls[id]) {
      assert id in s.calls ==> CallInv(s, s.calls[id]);
    }
  }

  lemma FinishKeepsCalls(s: State, step: Step)
    requires Inv(s) && Enabled(s, step) && step.Finish?
    ensures forall id | id in Apply(s, step).calls :: CallInv(Apply(s, step), Apply(s, step).calls[id])
    ensures LeaderInv(Apply(s, step))
  {
    var s' := Apply(s, step);
    forall id | id in s'.calls ensures CallInv(s', s'.calls[id]) {
      assert CallInv(s, s.calls[id]);
    }
  }

  lemma WaiterKeepsCalls(s: State, step: Step)
    requires Inv(s) && Enabled(s, step) && (step.Receive? || step.Abandon?)
    ensures forall id | id in Apply(s, step).calls :: CallInv(Apply(s, step), Apply(s, step).calls[id])
  {
    var s' := Apply(s, step);
    forall id | id in s'.calls ensures CallInv(s', s'.calls[id]) {
      assert CallInv(s, s.calls[id]);
    }
  }

  lemma WaiterKeepsLeaders(s: State, step: Step)
    requires Inv(s) && Enabled(s, step) && (step.Receive? || step.Abandon?)
    ensures LeaderInv(Apply(s, step))
  {
  }

  lemma WaiterKeeps(s: State, step: Step)
    requires Inv(s) && Enabled(s, step) && (step.Receive? || step.Abandon?)
    ensures Inv(Apply(s, step))
  {
    WaiterKeepsCalls(s, step);
    WaiterKeepsLeaders(s, step);
  }

  lemma StepKeeps(s: State, step: Step)
    requires Inv(s) && Enabled(s, step)
    ensures Inv(Apply(s, step))
  {
    match step
    case Enter(_, key, created, now) =>
      if key in s.reg.leases {
        JoinKeeps(s, step);
      } else {
        LeadKeepsCalls(s, step);
        LeadKeepsLeaders(s, step);
        EnterKeepsLeases(s.reg, s.clock, key, created, now);
        EnterKeepsSeparation(s.reg, s.clock, key, created, now);
      }
    case Finish(id, r) =>
      assert CallInv(s, s.calls[id]);
      FinishKeepsLeases(s.reg, s.clock, s.calls[id].lease, r);
      FinishKeepsCalls(s, step);
    case _ =>
      WaiterKeeps(s, step);
  }

  // ----- Whole runs -----

  /** A run from an empty service: any calls, in any interleaving. */
  ghost predicate IsRun(states: seq<State>, steps: seq<Step>) {
    && |states| == |steps| + 1
    && states[0] == Initial(states[0].clock)
    && forall i: nat | i < |steps| :: Follows(states, steps, i)
  }

  ghost predicate Follows(states: seq<State>, steps: seq<Step>, i: nat) {
    i < |steps| && |states| == |steps| + 1 && Enabled(states[i], steps[i]) && states[i + 1] == Apply(states[i], steps[i])
  }

  lemma {:induction false} RunInv(states: seq<State>, steps: seq<Step>, i: nat)
    requires IsRun(states, steps) && i < |states|
    ensures Inv(states[i])
  {
    if i > 0 {
      RunInv(states, steps, i - 1);
      assert Follows(states, steps, i - 1);
      StepKeeps(states[i - 1], steps[i - 1]);
    }
  }

  /** At most one run per key is in progress, and its lease is the map entry of the key. */
  lemma OneRunPerKey(states: seq<State>, steps: seq<Step>, i: nat, a: nat, b: nat)
    requires IsRun(states, steps) && i < |states|
    requires a in states[i].calls && b in states[i].calls
    requires states[i].calls[a].Leading? && states[i].calls[b].Leading? && states[i].calls[a].key == states[i].calls[b].key
    ensures a == b
    ensures states[i].calls[a].key in states[i].reg.leases
    ensures states[i].reg.leases[states[i].calls[a].key] == states[i].calls[a].lease
  {
    var s := states[i];
    RunInv(states, steps, i);
    assert CallInv(s, s.calls[a]) && CallInv(s, s.calls[b]);
    assert LeaseOk(s.reg, s.clock, s.calls[a].lease) && LeaseOk(s.reg, s.clock, s.calls[b].lease);
  }

  lemma StepKeepsResults(s: State, step: Step, lease: nat)
    requires Inv(s) && Enabled(s, step) && lease < |s.reg.all|
    ensures lease < |Apply(s, step).reg.all|
    ensures Apply(s, step).reg.all[lease].key == s.reg.all[lease].key
    ensures Apply(s, step).reg.all[lease].created == s.reg.all[lease].created
    ensures s.reg.all[lease].closed ==> Apply(s, step).reg.all[lease] == s.reg.all[lease]
  {
    if step.Finish? {
      assert CallInv(s, s.calls[step.id]);
    }
  }

  lemma NextKeepsResults(states: seq<State>, steps: seq<Step>, i: nat, lease: nat)
    requires IsRun(states, steps) && i < |steps| && lease < |states[i].reg.all|
    ensures lease < |states[i + 1].reg.all|
    ensures states[i].reg.all[lease].closed ==> states[i + 1].reg.all[lease] == states[i].reg.all[lease]
  {
    RunInv(states, steps, i);
    assert Follows(states, steps, i);
    StepKeepsResults(states[i], steps[i], lease);
  }

  /** A result is published together with the closing of the channel and never changes afterwards. */
  lemma {:induction false} ResultsAreFinal(states: seq<State>, steps: seq<Step>, i: nat, j: nat, lease: nat)
    requires IsRun(states, steps) && i <= j < |states|
    requires lease < |states[i].reg.all| && states[i].reg.all[lease].closed
    ensures lease < |states[j].reg.all| && states[j].reg.all[lease] == states[i].reg.all[lease]
  {
    if i < j {
      ResultsAreFinal(states, steps, i, j - 1, lease);
      NextKeepsResults(states, steps, j - 1, lease);
    }
  }

  /** A waiter that does not leave by its own context returns exactly the pair of its leader. */
  lemma WaitersShareTheLeadersResult(states: seq<State>, steps: seq<Step>, i: nat, w: nat)
    requires IsRun(states, steps) && i < |states|
    requires w in states[i].calls && states[i].calls[w].Returned? && states[i].calls[w].role == Waiter
    ensures exists leader | leader in states[i].calls ::
      states[i].calls[leader] == Returned(states[i].calls[w].key, states[i].calls[w].lease, Leader, states[i].calls[w].r)
  {
    var s := states[i];
    RunInv(states, steps, i);
    var call := s.calls[w];
    assert CallInv(s, call);
    var leader := s.leaders[call.lease];
    assert CallInv(s, s.calls[leader]);
    assert LeaseOk(s.reg, s.clock, call.lease);
    assert s.calls[leader].Returned?;
  }

  /** Two successful runs of one key: the later lease was made more than six hours after the earlier. */
  lemma SuccessesAreSixHoursApart(states: seq<State>, steps: seq<Step>, i: nat, a: nat, b: nat)
    requires IsRun(states, steps) && i < |states|
    requires a in states[i].calls && b in states[i].calls && a != b
    requires Leads(states[i].calls[a]) && Leads(states[i].calls[b]) && states[i].calls[a].key == states[i].calls[b].key
    requires states[i].calls[a].Returned? && states[i].calls[a].r.Ok? && states[i].calls[a].lease < states[i].calls[b].lease
    ensures states[i].calls[b].lease < |states[i].reg.all|
    ensures states[i].reg.all[states[i].calls[a].lease].created + SIX_HOURS < states[i].reg.all[states[i].calls[b].lease].created
  {
    var s := states[i];
    RunInv(states, steps, i);
    assert CallInv(s, s.calls[a]) && CallInv(s, s.calls[b]);
    assert Apart(s.reg, s.calls[a].lease, s.calls[b].lease);
  }

  /** Nothing takes away the entry of a running lease: neither eviction nor a failing leader of
      another key.  A failing leader removes its own lease, and nothing else. */
  lemma RunningLeasesStay(states: seq<State>, steps: seq<Step>, i: nat, id: nat)
    requires IsRun(states, steps) && i < |steps|
    requires id in states[i].calls && states[i].calls[id].Leading?
    ensures var key, lease := states[i].calls[id].key, states[i].calls[id].lease;
      if steps[i].Finish? && steps[i].id == id then
        states[i + 1].reg.leases == if steps[i].r.Err? then states[i].reg.leases - {key} else states[i].reg.leases
      else
        key in states[i + 1].reg.leases && states[i + 1].reg.leases[key] == lease
  {
    var s, s' := states[i], states[i + 1];
    RunInv(states, steps, i);
    RunInv(states, steps, i + 1);
    assert Follows(states, steps, i);
    assert CallInv(s, s.calls[id]);
    if !(steps[i].Finish? && steps[i].id == id) {
      assert s'.calls[id] == s.calls[id];
      assert CallInv(s', s'.calls[id]);
      assert LeaseOk(s'.reg, s'.clock, s'.calls[id].lease);
    }
  }

  /** A failure is never handed to a later caller: whoever joins a lease joins a running or a
      successful one. */
  lemma FailuresAreNotReused(states: seq<State>, steps: seq<Step>, i: nat)
    requires IsRun(states, steps) && i < |steps| && steps[i].Enter? && steps[i].key in states[i].reg.leases
    ensures var lease := states[i].reg.leases[steps[i].key];
      && lease < |states[i].reg.all|
      && (states[i].reg.all[lease].closed ==> states[i].reg.all[lease].result.Some? && states[i].reg.all[lease].result.value.Ok?)
  {
    RunInv(states, steps, i);
    assert LeaseOk(states[i].reg, states[i].clock, states[i].reg.leases[steps[i].key]);
  }

  /** No waiter is stuck: its lease is closed already, or a leader of its key is still running it. */
  lemma NoWaiterIsStuck(states: seq<State>, steps: seq<Step>, i: nat, w: nat)
    requires IsRun(states, steps) && i < |states| && w in states[i].calls && states[i].calls[w].Waiting?
    ensures || Enabled(states[i], Receive(w))
            || exists leader | leader in states[i].calls ::
                 states[i].calls[leader] == Leading(states[i].calls[w].key, states[i].calls[w].lease)
  {
    var s := states[i];
    RunInv(states, steps, i);
    assert CallInv(s, s.calls[w]);
    var leader := s.leaders[s.calls[w].lease];
    assert CallInv(s, s.calls[leader]);
  }
}
