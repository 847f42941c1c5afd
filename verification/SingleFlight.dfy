/** The idempotency leases of the Agent Kernel.  A lease pointer is the position of the lease in
    the list of all leases ever made; the regions that hold the mutex are the atomic steps. */
module SingleFlight {
  import opened Wrappers
  import opened Evidence
  import opened Protocol
  import Agent = AgentLoop

  type Key = string

  /** The pair returned by a run: a proposal or an error. */
  type Outcome = Result<Agent.Proposal, Agent.AgentError>

  /** A lease: the result fields and the done channel, which is open or closed.  The key is the
      one it was stored under. */
  datatype Lease = Lease(key: Key, created: int, closed: bool, result: Option<Outcome>)

  datatype Registry = Registry(all: seq<Lease>, leases: map<Key, nat>)

  const CAPACITY := 1000
  const SIX_HOURS := 21_600_000_000_000

  /** Every stored pointer leads to a lease of its key, and a channel closes with its result. */
  ghost predicate WellFormed(s: Registry) {
    && (forall k | k in s.leases :: s.leases[k] < |s.all| && s.all[s.leases[k]].key == k)
    && (forall i | 0 <= i < |s.all| :: s.all[i].closed <==> s.all[i].result.Some?)
  }

  predicate Evictable(s: Registry, k: Key, now: int)
    requires k in s.leases && s.leases[k] < |s.all|
  {
    s.all[s.leases[k]].created < now - SIX_HOURS && s.all[s.leases[k]].closed
  }

  /** Above capacity, old finished leases are forgotten. */
  ghost function Evicted(s: Registry, now: int): map<Key, nat>
    requires WellFormed(s)
  {
    if |s.leases| <= CAPACITY then s.leases
    else map k | k in s.leases && !Evictable(s, k, now) :: s.leases[k]
  }

  /** The first region of Evaluate: join the lease of the key, or become its leader. */
  ghost function Entered(s: Registry, k: Key, created: int, now: int): (Registry, nat, bool)
    requires WellFormed(s)
  {
    if k in s.leases then (s, s.leases[k], false)
    else
      var added := Registry(s.all + [Lease(k, created, false, None)], s.leases[k := |s.all|]);
      (added.(leases := Evicted(added, now)), |s.all|, true)
  }

  /** The second region of Evaluate: publish the result and close the channel. */
  ghost function Finished(s: Registry, lease: nat, r: Outcome): Registry
    requires lease < |s.all|
  {
    Registry(
      s.all[lease := s.all[lease].(closed := true, result := Some(r))],
      if r.Err? then s.leases - {s.all[lease].key} else s.leases)
  }

  datatype Refusal = InvalidEnvelope(violation: Violation) | BuildMismatch

  class Service {
    const build: string
    var all: seq<Lease>
    var leases: map<Key, nat>

    ghost function View(): Registry reads this { Registry(all, leases) }

    constructor (build: string)
      ensures View() == Registry([], map[]) && this.build == build
    {
      this.build := build;
      all, leases := [], map[];
    }

    /** The opening of Evaluate: a refused envelope leaves no trace; an admitted one is within its
        budgets and pinned to this build when it meets the registry. */
    method Admit(u: Unicode, e: Envelope, created: int, now: int) returns (r: Result<(nat, bool), Refusal>)
      requires WellFormed(View())
      modifies this
      ensures r.Err? <==> Validate(u, e).Some? || e.pin.kernelBuild != build
      ensures r.Err? ==> View() == old(View())
      ensures r.Ok? ==>
        && Bounded(e) && !Blank(u, e.idempotencyKey)
        && (View(), r.value.0, r.value.1) == Entered(old(View()), e.idempotencyKey, created, now)
    {
      var violation := Validate(u, e);
      if violation.Some? {
        return Err(InvalidEnvelope(violation.value));
      }
      if e.pin.kernelBuild != build {
        return Err(BuildMismatch);
      }
      var lease, leader := Enter(e.idempotencyKey, created, now);
      return Ok((lease, leader));
    }

    method EvictLocked(now: int)
      requires WellFormed(View())
      modifies this`leases
      ensures leases == Evicted(old(View()), now)
      ensures forall k | k in old(leases) ::
        k !in leases <==> |old(leases)| > 1000 && all[old(leases)[k]].closed && all[old(leases)[k]].created < now - 21_600_000_000_000
      ensures leases.Keys <= old(leases).Keys
      ensures forall k | k in leases :: leases[k] == old(leases)[k]
    {
      if |leases| <= CAPACITY {
        return;
      }
      var before, todo := leases, leases.Keys;
      while todo != {}
        invariant todo <= before.Keys
        invariant leases == map k | k in before && (k in todo || !Evictable(Registry(all, before), k, now)) :: before[k]
      {
        var key :| key in todo;
        todo := todo - {key};
        var item := all[before[key]];
        if item.created < now - SIX_HOURS {
          if item.closed {
            leases := leases - {key};
          }
        }
      }
    }

    /** The locked region on entry; `created` and `now` are the two readings of the clock. */
    method Enter(k: Key, created: int, now: int) returns (lease: nat, leader: bool)
      requires WellFormed(View())
      modifies this
      ensures (View(), lease, leader) == Entered(old(View()), k, created, now)
      ensures leader <==> k !in old(leases)
      ensures !leader ==> lease == old(leases)[k] && all == old(all) && leases == old(leases)
      ensures leader ==>
        && lease == |old(all)| && all == old(all) + [Lease(k, created, false, None)] && k in leases && leases[k] == lease
        && (forall x | x in leases && x != k :: x in old(leases) && leases[x] == old(leases)[x])
        && forall x | x in old(leases) ::
             x !in leases <==>
               |old(leases)| >= 1000 && all[old(leases)[x]].closed && all[old(leases)[x]].created < now - 21_600_000_000_000
    {
      if k in leases {
        return leases[k], false;
      }
      lease, leader := |all|, true;
      all := all + [Lease(k, created, false, None)];
      leases := leases[k := lease];
      EvictLocked(now);
    }

    /** The locked region of the leader when its run has ended. */
    method Finish(k: Key, lease: nat, r: Outcome)
      requires lease < |all| && all[lease].key == k
      modifies this
      ensures View() == Finished(old(View()), lease, r)
      ensures |all| == |old(all)| && forall i | 0 <= i < |all| ::
        all[i] == if i == lease then Lease(k, old(all)[i].created, true, Some(r)) else old(all)[i]
      ensures forall x :: x in leases <==> x in old(leases) && !(r.Err? && x == k)
      ensures forall x | x in leases :: leases[x] == old(leases)[x]
    {
      all := all[lease := all[lease].(result := Some(r))];
      if r.Err? {
        leases := leases - {k};
      }
      all := all[lease := all[lease].(closed := true)];
    }
  }
}
