/** Deciding what becomes of legacy jobs, one legacy key at a time. */
module JobMigration {
  import opened Wrappers
  import opened JobImport
  import opened JobFile

  function LegacyKeys(keys: seq<Key>): (r: seq<LegacyKey>)
    ensures |r| == |keys| && forall i | 0 <= i < |keys| :: r[i] == Legacy(keys[i])
  {
    if keys == [] then [] else LegacyKeys(keys[..|keys| - 1]) + [Legacy(keys[|keys| - 1])]
  }

  ghost predicate Within(xs: seq<nat>, bound: nat) {
    forall a | 0 <= a < |xs| :: xs[a] < bound
  }

  ghost predicate Ascending(xs: seq<nat>) {
    forall a, b | 0 <= a < b < |xs| :: xs[a] < xs[b]
  }

  /** A job without a primary department fits a row that has one.  (A job with a primary department never
      fits, so comparing the two primaries decides nothing.) */
  predicate MatchesPath(p: Plan, j: nat, i: nat) {
    j < |p.loose| && i < |p.rooted| && p.loose[j] && p.rooted[i]
  }

  function Unmatched(p: Plan, items: seq<nat>): (r: seq<nat>)
    requires Within(items, |p.rowKeys|)
    ensures forall a | 0 <= a < |r| :: r[a] in items && p.rowKeys[r[a]] !in p.jobKeys
    ensures forall x | x in items && p.rowKeys[x] !in p.jobKeys :: x in r
  {
    if items == [] then []
    else
      var n := |items| - 1;
      var before := Unmatched(p, items[..n]);
      if p.rowKeys[items[n]] in p.jobKeys then before else before + [items[n]]
  }

  function Candidates(p: Plan, members: seq<nat>): (r: seq<nat>)
    requires Within(members, |p.jobKeys|)
    ensures forall a | 0 <= a < |r| :: r[a] in members && p.jobKeys[r[a]] !in p.rowKeys
    ensures forall x | x in members && p.jobKeys[x] !in p.rowKeys :: x in r
  {
    if members == [] then []
    else
      var n := |members| - 1;
      var before := Candidates(p, members[..n]);
      if p.jobKeys[members[n]] in p.rowKeys then before else before + [members[n]]
  }

  /** The candidates that row i could complete. */
  function Completable(p: Plan, candidates: seq<nat>, i: nat): (r: seq<nat>)
    requires i < |p.rooted| && Within(candidates, |p.loose|)
    ensures forall a | 0 <= a < |r| :: r[a] in candidates && MatchesPath(p, r[a], i)
    ensures forall x | x in candidates && MatchesPath(p, x, i) :: x in r
  {
    if candidates == [] then []
    else
      var n := |candidates| - 1;
      var before := Completable(p, candidates[..n], i);
      if MatchesPath(p, candidates[n], i) then before + [candidates[n]] else before
  }

  /** Job j fits some row of a group. */
  predicate FitsSome(p: Plan, j: nat, items: seq<nat>) {
    exists a | 0 <= a < |items| :: MatchesPath(p, j, items[a])
  }

  lemma {:induction false} UnmatchedAscends(p: Plan, items: seq<nat>)
    requires Within(items, |p.rowKeys|) && Ascending(items)
    ensures Ascending(Unmatched(p, items))
  {
    if items != [] {
      UnmatchedAscends(p, items[..|items| - 1]);
    }
  }

  lemma {:induction false} CandidatesAscend(p: Plan, members: seq<nat>)
    requires Within(members, |p.jobKeys|) && Ascending(members)
    ensures Ascending(Candidates(p, members))
  {
    if members != [] {
      CandidatesAscend(p, members[..|members| - 1]);
    }
  }

  lemma {:induction false} CompletableAscends(p: Plan, candidates: seq<nat>, i: nat)
    requires i < |p.rooted| && Within(candidates, |p.loose|) && Ascending(candidates)
    ensures Ascending(Completable(p, candidates, i))
  {
    if candidates != [] {
      CompletableAscends(p, candidates[..|candidates| - 1], i);
    }
  }

  lemma OnlyOne(xs: seq<nat>, x: nat)
    requires Ascending(xs) && x in xs && forall a | 0 <= a < |xs| :: xs[a] == x
    ensures xs == [x]
  {
    assert xs[0] == xs[|xs| - 1];
  }

  // ----- One legacy key -----

  /** The positions, in order, of the keys with one legacy key. */
  ghost predicate AreMembers(keys: seq<Key>, legacy: LegacyKey, xs: seq<nat>) {
    && Within(xs, |keys|) && Ascending(xs)
    && (forall i: nat {:trigger i in xs} | i < |keys| :: i in xs <==> Legacy(keys[i]) == legacy)
  }

  /** The rows and the jobs of one legacy key. */
  ghost predicate IsGroup(p: Plan, legacy: LegacyKey, items: seq<nat>, members: seq<nat>) {
    AreMembers(p.rowKeys, legacy, items) && AreMembers(p.jobKeys, legacy, members)
  }

  lemma PositionsAreMembers(keys: seq<Key>, legacy: LegacyKey, xs: seq<nat>)
    requires xs == Positions(LegacyKeys(keys), legacy)
    ensures AreMembers(keys, legacy, xs)
  {
    PositionsAscend(LegacyKeys(keys), legacy);
  }

  lemma OneUnmatchedIsSole(p: Plan, legacy: LegacyKey, items: seq<nat>, members: seq<nat>, i: nat)
    requires Sound(p) && IsGroup(p, legacy, items, members) && i in items
    ensures SoleUnmatched(p, i) <==> Unmatched(p, items) == [i]
  {
    var r := Unmatched(p, items);
    UnmatchedAscends(p, items);
    if SoleUnmatched(p, i) {
      forall a | 0 <= a < |r| ensures r[a] == i {
        assert r[a] in items;
      }
      OnlyOne(r, i);
    }
    if r == [i] {
      assert r[0] == i;
      forall k: nat | k < |p.rowKeys| && k != i && Legacy(p.rowKeys[k]) == Legacy(p.rowKeys[i]) ensures Matched(p, k) {
        assert k in items && k !in r;
      }
    }
  }

  lemma SoleByGroup(p: Plan, legacy: LegacyKey, items: seq<nat>, members: seq<nat>)
    requires Sound(p) && IsGroup(p, legacy, items, members)
    ensures (exists i: nat | i < |p.rowKeys| :: SoleUnmatched(p, i) && Legacy(p.rowKeys[i]) == legacy) <==> |Unmatched(p, items)| == 1
  {
    var r := Unmatched(p, items);
    forall i: nat | i < |p.rowKeys| && SoleUnmatched(p, i) && Legacy(p.rowKeys[i]) == legacy ensures |r| == 1 {
      OneUnmatchedIsSole(p, legacy, items, members, i);
    }
    if |r| == 1 {
      assert r[0] in items && r == [r[0]];
      OneUnmatchedIsSole(p, legacy, items, members, r[0]);
    }
  }

  lemma CompletedByGroup(p: Plan, legacy: LegacyKey, items: seq<nat>, members: seq<nat>, j: nat)
    requires Sound(p) && IsGroup(p, legacy, items, members) && j in members
    ensures j < |p.jobKeys|
    ensures (exists i: nat | i < |p.rowKeys| :: CanComplete(p, j, i)) <==> j in Candidates(p, members) && FitsSome(p, j, items)
  {
    if i: nat :| i < |p.rowKeys| && CanComplete(p, j, i) {
      assert i in items;
      var a :| 0 <= a < |items| && items[a] == i;
      assert MatchesPath(p, j, items[a]);
    }
    if j in Candidates(p, members) && FitsSome(p, j, items) {
      var a :| 0 <= a < |items| && MatchesPath(p, j, items[a]);
      assert items[a] in items;
      assert CanComplete(p, j, items[a]);
    }
  }

  lemma SupersededByGroup(p: Plan, legacy: LegacyKey, items: seq<nat>, members: seq<nat>, j: nat)
    requires Sound(p) && IsGroup(p, legacy, items, members) && j in members
    ensures j < |p.jobKeys|
    ensures Superseded(p, j) <==> |Unmatched(p, items)| != 1 && j in Candidates(p, members) && FitsSome(p, j, items)
  {
    SoleByGroup(p, legacy, items, members);
    CompletedByGroup(p, legacy, items, members, j);
  }

  lemma ReuseByGroup(norm: Norm, p: Plan, legacy: LegacyKey, items: seq<nat>, members: seq<nat>, i: nat, j: nat)
    requires Sound(p) && Coherent(norm, p) && IsGroup(p, legacy, items, members) && i in items && j < |p.jobKeys|
    ensures Within(Candidates(p, members), |p.loose|)
    ensures Reuses(p, j, i) <==> Unmatched(p, items) == [i] && Completable(p, Candidates(p, members), i) == [j]
  {
    var c := Candidates(p, members);
    forall a | 0 <= a < |c| ensures c[a] < |p.loose| {
      assert c[a] in members;
    }
    OneUnmatchedIsSole(p, legacy, items, members, i);
    CandidatesAscend(p, members);
    CompletableAscends(p, c, i);
    var r := Completable(p, c, i);
    forall a | 0 <= a < |r| ensures r[a] < |p.jobKeys| && CanComplete(p, r[a], i) {
      assert r[a] in c && r[a] in members;
    }
    if Reuses(p, j, i) {
      assert j in members && j in c && j in r;
      forall a | 0 <= a < |r| ensures r[a] == j {
        CompletableIsUnique(norm, p, r[a], j, i, i);
      }
      OnlyOne(r, j);
    }
    if r == [j] {
      assert r[0] == j;
    }
  }
}
