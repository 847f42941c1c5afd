/** The job table and the import that rewrites it in place. */
module JobStore {
  import opened Wrappers
  import opened Departments
  import opened JobImport
  import opened JobFile
  import opened JobMigration

  /** The same job, made inactive when off holds. */
  function Retired(job: Job, off: bool): Job {
    job.(active := job.active && !off)
  }

  /** Job j shares its key with another of the first n jobs. */
  ghost predicate Repeats(keys: seq<Key>, n: nat, j: nat) {
    j < n <= |keys| && exists k | 0 <= k < n :: k != j && keys[k] == keys[j]
  }

  ghost predicate Indexed(keys: seq<Key>, n: nat, byKey: map<Key, nat>) {
    && n <= |keys| && (forall j | 0 <= j < n :: keys[j] in byKey)
    && forall k | k in byKey :: byKey[k] < n && keys[byKey[k]] == k
  }

  lemma RepeatsNext(keys: seq<Key>, j: nat, first: nat, x: nat)
    requires j < |keys| && first < j && keys[first] == keys[j]
    ensures Repeats(keys, j + 1, x) <==> Repeats(keys, j, x) || x == first || x == j
  {
    if Repeats(keys, j + 1, x) && x != first && x != j {
      var k :| 0 <= k < j + 1 && k != x && keys[k] == keys[x];
      if k == j {
        assert keys[first] == keys[x];
      }
    }
  }

  lemma NewKeyRepeatsNothing(keys: seq<Key>, j: nat, x: nat)
    requires j < |keys| && forall k | 0 <= k < j :: keys[k] != keys[j]
    ensures Repeats(keys, j + 1, x) <==> Repeats(keys, j, x)
  {
  }

  /** The positions by key, in one pass, together with all positions that share their key. */
  method IndexKeys(keys: seq<Key>) returns (byKey: map<Key, nat>, repeated: set<nat>)
    ensures Indexed(keys, |keys|, byKey)
    ensures forall x :: x in repeated <==> Repeats(keys, |keys|, x)
  {
    byKey, repeated := map[], {};
    for j := 0 to |keys|
      invariant Indexed(keys, j, byKey)
      invariant forall x :: x in repeated <==> Repeats(keys, j, x)
    {
      ghost var before, next := repeated, j + 1;
      if keys[j] in byKey {
        var first := byKey[keys[j]];
        repeated := repeated + {first, j};
        forall x ensures x in repeated <==> Repeats(keys, next, x) {
          RepeatsNext(keys, j, first, x);
        }
      } else {
        byKey := byKey[keys[j] := j];
        forall x ensures x in repeated <==> Repeats(keys, next, x) {
          NewKeyRepeatsNothing(keys, j, x);
        }
      }
    }
  }

  lemma NoRepeatsIffDistinct(keys: seq<Key>, repeated: set<nat>)
    requires forall x :: x in repeated <==> Repeats(keys, |keys|, x)
    ensures repeated == {} <==> Distinct(keys)
  {
    if repeated == {} {
      forall a: nat, b: nat | a < b < |keys| ensures keys[a] != keys[b] {
        assert a !in repeated;
        assert !Repeats(keys, |keys|, a);
      }
    } else {
      var x :| x in repeated;
      var k :| 0 <= k < |keys| && k != x && keys[k] == keys[x];
    }
  }

  function Members(groups: map<LegacyKey, seq<nat>>, legacy: LegacyKey): seq<nat> {
    if legacy in groups then groups[legacy] else []
  }

  lemma EveryLegacyKeySeen(p: Plan, order: seq<LegacyKey>, rowGroups: map<LegacyKey, seq<nat>>)
    requires Sound(p) && forall k :: k in order <==> k in rowGroups
    requires forall k :: Grouped(LegacyKeys(p.rowKeys), |p.rowKeys|, rowGroups, k)
    ensures forall i | 0 <= i < |p.rowKeys| :: Legacy(p.rowKeys[i]) in order
    ensures forall j: nat | j < |p.jobKeys| && Superseded(p, j) :: Legacy(p.jobKeys[j]) in order
  {
    assert LegacyKeys(p.rowKeys)[..|p.rowKeys|] == LegacyKeys(p.rowKeys);
    forall i | 0 <= i < |p.rowKeys| ensures Legacy(p.rowKeys[i]) in order {
      assert Grouped(LegacyKeys(p.rowKeys), |p.rowKeys|, rowGroups, Legacy(p.rowKeys[i]));
      assert i in Positions(LegacyKeys(p.rowKeys), Legacy(p.rowKeys[i]));
    }
  }

  lemma GroupIsWhole(p: Plan, order: seq<LegacyKey>, rowGroups: map<LegacyKey, seq<nat>>, jobGroups: map<LegacyKey, seq<nat>>, n: nat)
    requires Sound(p) && n < |order| && forall k :: k in order <==> k in rowGroups
    requires forall k :: Grouped(LegacyKeys(p.rowKeys), |p.rowKeys|, rowGroups, k)
    requires forall k :: Grouped(LegacyKeys(p.jobKeys), |p.jobKeys|, jobGroups, k)
    ensures order[n] in rowGroups
    ensures IsGroup(p, order[n], rowGroups[order[n]], Members(jobGroups, order[n]))
  {
    var legacy := order[n];
    assert legacy in order;
    assert Grouped(LegacyKeys(p.rowKeys), |p.rowKeys|, rowGroups, legacy);
    assert Grouped(LegacyKeys(p.jobKeys), |p.jobKeys|, jobGroups, legacy);
    assert LegacyKeys(p.rowKeys)[..|p.rowKeys|] == LegacyKeys(p.rowKeys);
    assert LegacyKeys(p.jobKeys)[..|p.jobKeys|] == LegacyKeys(p.jobKeys);
    PositionsAreMembers(p.rowKeys, legacy, rowGroups[legacy]);
    PositionsAreMembers(p.jobKeys, legacy, Positions(LegacyKeys(p.jobKeys), legacy));
  }

  /** The rows and the jobs by legacy key. */
  method GroupByLegacyKey(p: Plan) returns (order: seq<LegacyKey>, rowGroups: map<LegacyKey, seq<nat>>, jobGroups: map<LegacyKey, seq<nat>>)
    requires Sound(p)
    ensures Distinct(order)
    ensures forall n | 0 <= n < |order| :: order[n] in rowGroups && rowGroups[order[n]] != []
    ensures forall n | 0 <= n < |order| :: IsGroup(p, order[n], rowGroups[order[n]], Members(jobGroups, order[n]))
    ensures forall i | 0 <= i < |p.rowKeys| :: Legacy(p.rowKeys[i]) in order
    ensures forall j: nat | j < |p.jobKeys| && Superseded(p, j) :: Legacy(p.jobKeys[j]) in order
  {
    var unused;
    order, rowGroups := GroupByKey(LegacyKeys(p.rowKeys));
    unused, jobGroups := GroupByKey(LegacyKeys(p.jobKeys));
    forall n | 0 <= n < |order|
      ensures order[n] in rowGroups && rowGroups[order[n]] != []
      ensures IsGroup(p, order[n], rowGroups[order[n]], Members(jobGroups, order[n]))
    {
      GroupIsWhole(p, order, rowGroups, jobGroups, n);
    }
    EveryLegacyKeySeen(p, order, rowGroups);
  }

  /** Row i takes over job j according to the map that PrepareMigrations returns. */
  ghost predicate Takes(p: Plan, reusable: map<Key, nat>, i: nat, j: nat) {
    i < |p.rowKeys| && p.rowKeys[i] in reusable && reusable[p.rowKeys[i]] == j
  }

  /** The map says which legacy job each row takes over, for the rows with a legacy key in seen. */
  ghost predicate ReuseKnown(p: Plan, seen: seq<LegacyKey>, reusable: map<Key, nat>) {
    && (forall k | k in reusable :: reusable[k] < |p.jobKeys| && Legacy(k) in seen)
    && forall i: nat, j: nat | i < |p.rowKeys| && j < |p.jobKeys| && Legacy(p.rowKeys[i]) in seen ::
         Reuses(p, j, i) <==> Takes(p, reusable, i, j)
  }

  /** The map says which legacy job each row takes over. */
  ghost predicate ReuseIsKnown(p: Plan, reusable: map<Key, nat>) {
    && (forall k | k in reusable :: reusable[k] < |p.jobKeys|)
    && forall i: nat, j: nat | i < |p.rowKeys| && j < |p.jobKeys| :: Reuses(p, j, i) <==> Takes(p, reusable, i, j)
  }

  lemma ReuseStep(p: Plan, seen: seq<LegacyKey>, reusable: map<Key, nat>, legacy: LegacyKey, items: seq<nat>, members: seq<nat>,
                  reused: Option<(nat, nat)>)
    requires Sound(p) && ReuseKnown(p, seen, reusable) && legacy !in seen && IsGroup(p, legacy, items, members)
    requires reused.Some? ==> reused.value.0 in items && reused.value.1 < |p.jobKeys|
    requires forall i: nat, j: nat | i in items && j < |p.jobKeys| :: Reuses(p, j, i) <==> reused == Some((i, j))
    ensures reused.Some? ==> reused.value.0 < |p.rowKeys|
    ensures ReuseKnown(p, seen + [legacy],
      if reused.None? then reusable else reusable[p.rowKeys[reused.value.0] := reused.value.1])
  {
    var reusable' := if reused.None? then reusable else reusable[p.rowKeys[reused.value.0] := reused.value.1];
    forall i: nat, j: nat | i < |p.rowKeys| && j < |p.jobKeys| && Legacy(p.rowKeys[i]) in seen + [legacy]
      ensures Reuses(p, j, i) <==> Takes(p, reusable', i, j)
    {
      if Legacy(p.rowKeys[i]) == legacy {
        assert i in items;
        if reused.Some? && i != reused.value.0 {
          assert p.rowKeys[i] != p.rowKeys[reused.value.0];
        }
      } else {
        assert Reuses(p, j, i) <==> Takes(p, reusable, i, j);
      }
    }
  }

  lemma GroupSizes(p: Plan, legacy: LegacyKey, items: seq<nat>, members: seq<nat>)
    requires Sound(p) && IsGroup(p, legacy, items, members)
    ensures Within(Candidates(p, members), |p.jobKeys|) && Within(Unmatched(p, items), |p.rowKeys|)
    ensures |items| == 1 ==> (p.rowKeys[items[0]] in p.jobKeys <==> Unmatched(p, items) == [])
    ensures |items| == 1 ==> |Unmatched(p, items)| <= 1
  {
    forall a | 0 <= a < |Candidates(p, members)| ensures Candidates(p, members)[a] < |p.jobKeys| {
      assert Candidates(p, members)[a] in members;
    }
    forall a | 0 <= a < |Unmatched(p, items)| ensures Unmatched(p, items)[a] < |p.rowKeys| {
      assert Unmatched(p, items)[a] in items;
    }
  }

  /** The branches of a group retire job j. */
  predicate RetiredByGroup(p: Plan, items: seq<nat>, members: seq<nat>, j: nat)
    requires j < |p.loose| && Within(items, |p.rooted|) && Within(items, |p.rowKeys|) && Within(members, |p.jobKeys|)
  {
    |Unmatched(p, items)| != 1 && j in Candidates(p, members) && FitsSome(p, j, items)
  }

  lemma GroupRetires(p: Plan, legacy: LegacyKey, items: seq<nat>, members: seq<nat>)
    requires Sound(p) && IsGroup(p, legacy, items, members)
    ensures forall j: nat {:trigger Superseded(p, j)} | j < |p.jobKeys| ::
      Legacy(p.jobKeys[j]) == legacy && Superseded(p, j) <==> RetiredByGroup(p, items, members, j)
  {
    forall j: nat | j < |p.jobKeys|
      ensures Legacy(p.jobKeys[j]) == legacy && Superseded(p, j) <==> RetiredByGroup(p, items, members, j)
    {
      if j in members {
        SupersededByGroup(p, legacy, items, members, j);
      }
    }
  }

  lemma GroupReuses(norm: Norm, p: Plan, legacy: LegacyKey, items: seq<nat>, members: seq<nat>)
    requires Sound(p) && Coherent(norm, p) && IsGroup(p, legacy, items, members)
    ensures Within(Candidates(p, members), |p.jobKeys|)
    ensures forall i: nat, j: nat {:trigger Reuses(p, j, i)} | i in items && j < |p.jobKeys| ::
      Reuses(p, j, i) <==> Unmatched(p, items) == [i] && Completable(p, Candidates(p, members), i) == [j]
  {
    GroupSizes(p, legacy, items, members);
    forall i: nat, j: nat | i in items && j < |p.jobKeys|
      ensures Reuses(p, j, i) <==> Unmatched(p, items) == [i] && Completable(p, Candidates(p, members), i) == [j]
    {
      ReuseByGroup(norm, p, legacy, items, members, i, j);
    }
  }

  /** The superseded jobs among those with a legacy key in seen are retired. */
  ghost predicate RetiredSoFar(p: Plan, jobs: seq<Job>, seen: seq<LegacyKey>, jobs': seq<Job>) {
    && |jobs'| == |jobs| == |p.jobKeys|
    && forall j: nat | j < |jobs| :: jobs'[j] == Retired(jobs[j], Legacy(p.jobKeys[j]) in seen && Superseded(p, j))
  }

  lemma RetireStep(p: Plan, jobs: seq<Job>, seen: seq<LegacyKey>, before: seq<Job>, legacy: LegacyKey, after: seq<Job>)
    requires Sound(p) && |p.jobKeys| == |jobs| && RetiredSoFar(p, jobs, seen, before) && |after| == |before|
    requires forall j: nat | j < |before| :: after[j] == Retired(before[j], Legacy(p.jobKeys[j]) == legacy && Superseded(p, j))
    ensures RetiredSoFar(p, jobs, seen + [legacy], after)
  {
  }

  // ----- Storing the rows -----

  /** The job of a row is in the table, below the department of its path. */
  ghost predicate RowStored(t: Tables, row: Row, target: nat) {
    target < |t.jobs| && t.jobs[target] == JobOf(t.depts, row) && Find(t.depts, row.path).Some?
  }

  /** The first rows are stored at their targets. */
  ghost predicate RowsIn(rows: seq<Row>, t: Tables, targets: seq<nat>) {
    |targets| <= |rows| && forall i {:trigger RowStored(t, rows[i], targets[i])} | 0 <= i < |targets| :: RowStored(t, rows[i], targets[i])
  }

  /** Every target is the right one for its row, and every other job is as in jobs. */
  ghost predicate Placed(p: Plan, jobs: seq<Job>, now: seq<Job>, targets: seq<nat>) {
    && Distinct(targets) && |jobs| <= |now| && |targets| <= |p.rowKeys|
    && (forall i | 0 <= i < |targets| :: targets[i] < |now| && TargetOk(p, i, targets[i]))
    && (forall j: nat | |jobs| <= j < |now| :: j in targets)
    && (forall j: nat | j < |jobs| && j !in targets :: now[j] == jobs[j])
  }

  lemma RowStaysStored(t: Tables, t': Tables, row: Row, target: nat)
    requires RowStored(t, row, target) && t.depts <= t'.depts
    requires target < |t'.jobs| && t'.jobs[target] == t.jobs[target]
    ensures RowStored(t', row, target)
  {
    assert t'.depts == t.depts + t'.depts[|t.depts|..];
    FindSurvivesGrowth(t.depts, t'.depts[|t.depts|..], row.path);
  }

  /** The table with a job written at a position: over the job there, or after the last one. */
  function Written(jobs: seq<Job>, target: nat, job: Job): seq<Job> {
    if target < |jobs| then jobs[target := job] else jobs + [job]
  }

  lemma RowsStep(rows: seq<Row>, t: Tables, targets: seq<nat>, t': Tables, target: nat, job: Job)
    requires RowsIn(rows, t, targets) && |targets| < |rows| && t.depts <= t'.depts
    requires target !in targets && RowStored(t', rows[|targets|], target)
    requires t'.jobs == Written(t.jobs, target, job)
    ensures RowsIn(rows, t', targets + [target])
  {
    forall i | 0 <= i < |targets| ensures RowStored(t', rows[i], targets[i]) {
      assert targets[i] in targets;
      RowStaysStored(t, t', rows[i], targets[i]);
    }
  }

  lemma NewTarget(norm: Norm, p: Plan, jobs: seq<Job>, now: seq<Job>, targets: seq<nat>, target: nat)
    requires Sound(p) && Coherent(norm, p) && |p.jobKeys| == |jobs| && |targets| < |p.rowKeys| && Placed(p, jobs, now, targets)
    requires TargetOk(p, |targets|, target) && (target < |jobs| || target == |now|)
    ensures target !in targets
  {
    forall i | 0 <= i < |targets| ensures targets[i] != target {
      if target < |jobs| {
        TargetsAreDistinct(norm, p, |targets|, i, target, targets[i]);
      }
    }
  }

  lemma PlaceStep(norm: Norm, p: Plan, jobs: seq<Job>, now: seq<Job>, targets: seq<nat>, job: Job, target: nat)
    requires Sound(p) && Coherent(norm, p) && |p.jobKeys| == |jobs| && |targets| < |p.rowKeys| && Placed(p, jobs, now, targets)
    requires TargetOk(p, |targets|, target) && (target < |jobs| || target == |now|)
    ensures target !in targets
    ensures Placed(p, jobs, Written(now, target, job), targets + [target])
  {
    NewTarget(norm, p, jobs, now, targets, target);
    var targets' := targets + [target];
    assert forall j :: j in targets' <==> j in targets || j == target;
  }

  /** What the two maps say about row n: its target if it has one already. */
  function Choice(byKey: map<Key, nat>, reusable: map<Key, nat>, key: Key): Option<nat> {
    if key in byKey then Some(byKey[key]) else if key in reusable then Some(reusable[key]) else None
  }

  /** The map from keys to jobs still says what it said about the keys of the remaining rows. */
  ghost predicate Looks(p: Plan, byKey: map<Key, nat>, n: nat) {
    && (forall j | 0 <= j < |p.jobKeys| :: p.jobKeys[j] in byKey)
    && forall k {:trigger KeyKnown(p, byKey, n, k)} | k in byKey :: KeyKnown(p, byKey, n, k)
  }

  /** The key leads to the job that had it at the start, or belongs to a row before row n. */
  ghost predicate KeyKnown(p: Plan, byKey: map<Key, nat>, n: nat, key: Key) {
    (key in byKey && byKey[key] < |p.jobKeys| && p.jobKeys[byKey[key]] == key) || KeyBefore(p, n, key)
  }

  ghost predicate KeyBefore(p: Plan, n: nat, key: Key) {
    exists i | 0 <= i < |p.rowKeys| && i < n :: p.rowKeys[i] == key
  }

  lemma ChoiceIsTarget(p: Plan, byKey: map<Key, nat>, reusable: map<Key, nat>, n: nat)
    requires Sound(p) && n < |p.rowKeys| && Looks(p, byKey, n) && ReuseIsKnown(p, reusable)
    ensures var c := Choice(byKey, reusable, p.rowKeys[n]);
      if c.Some? then c.value < |p.jobKeys| && TargetOk(p, n, c.value)
      else forall target: nat | target >= |p.jobKeys| :: TargetOk(p, n, target)
  {
    var key := p.rowKeys[n];
    assert !KeyBefore(p, n, key);
    assert key in byKey ==> KeyKnown(p, byKey, n, key);
    if key !in byKey {
      assert !Matched(p, n);
      if key in reusable {
        assert Takes(p, reusable, n, reusable[key]);
      } else {
        forall j: nat | j < |p.jobKeys| ensures !Reuses(p, j, n) {
          assert !Takes(p, reusable, n, j);
        }
      }
    }
  }

  lemma LooksNext(p: Plan, byKey: map<Key, nat>, n: nat, target: nat)
    requires n < |p.rowKeys| && Looks(p, byKey, n)
    ensures Looks(p, byKey, n + 1)
    ensures p.rowKeys[n] !in byKey ==> Looks(p, byKey[p.rowKeys[n] := target], n + 1)
  {
    assert KeyBefore(p, n + 1, p.rowKeys[n]);
    forall k | k in byKey ensures KeyKnown(p, byKey, n + 1, k) {
      assert KeyKnown(p, byKey, n, k);
    }
    if p.rowKeys[n] !in byKey {
      var byKey' := byKey[p.rowKeys[n] := target];
      forall k | k in byKey' ensures KeyKnown(p, byKey', n + 1, k) {
        assert k in byKey ==> KeyKnown(p, byKey, n, k);
      }
    }
  }

  /** Every active job outside keep is deactivated. */
  function OnlyActive(jobs: seq<Job>, keep: set<nat>): (r: seq<Job>)
    ensures |r| == |jobs| && forall j: nat | j < |jobs| :: r[j] == Retired(jobs[j], j !in keep)
  {
    if jobs == [] then []
    else
      var n := |jobs| - 1;
      OnlyActive(jobs[..n], keep) + [Retired(jobs[n], n !in keep)]
  }

  ghost predicate GrownSoFar(depts: seq<Department>, now: seq<Department>, rows: seq<Row>) {
    && depts <= now && Fits(now, Paths(rows))
    && ((forall i | 0 <= i < |rows| :: Find(depts, rows[i].path).Some?) ==> now == depts)
  }

  lemma AllGrown(depts: seq<Department>, rows: seq<Row>, t: Tables, targets: seq<nat>)
    requires GrownSoFar(depts, t.depts, rows) && RowsIn(rows, t, targets) && |targets| == |rows|
    ensures Grown(depts, t.depts, rows)
  {
    forall i | 0 <= i < |rows| ensures PathFound(t.depts, rows[i]) {
      assert RowStored(t, rows[i], targets[i]);
      FoundNames(t.depts, Paths(rows), rows[i].path);
    }
  }

  lemma RowsEnd(p: Plan, rows: seq<Row>, t: Tables, jobs: seq<Job>, prepared: seq<Job>, targets: seq<nat>)
    requires Sound(p) && |p.rowKeys| == |rows| && |p.jobKeys| == |prepared| && |targets| == |rows|
    requires RowsIn(rows, t, targets) && Placed(p, prepared, t.jobs, targets)
    requires |jobs| == |t.jobs| && forall j: nat | j < |jobs| && j in targets :: jobs[j] == t.jobs[j]
    ensures RowsStored(p, rows, Tables(t.depts, jobs), targets)
  {
    forall i | 0 <= i < |rows| ensures targets[i] < |jobs| && jobs[targets[i]] == JobOf(t.depts, rows[i]) {
      assert RowStored(t, rows[i], targets[i]) && targets[i] in targets;
    }
  }

  lemma OthersEnd(p: Plan, start: seq<Job>, prepared: seq<Job>, stored: seq<Job>, replace: bool, end: seq<Job>, targets: seq<nat>)
    requires Sound(p) && |p.jobKeys| == |start| == |prepared| && Placed(p, prepared, stored, targets) && |end| == |stored|
    requires forall j: nat | j < |start| :: prepared[j] == Retired(start[j], Superseded(p, j))
    requires forall j: nat | j < |end| && j !in targets :: end[j] == Retired(stored[j], replace)
    ensures OthersKept(p, start, replace, end, targets)
  {
    forall j: nat | j < |start| && j !in targets
      ensures end[j] == start[j].(active := start[j].active && !replace && !Superseded(p, j))
    {
      assert stored[j] == prepared[j];
    }
  }

  lemma EndOfReplace(stored: seq<Job>, imported: set<nat>, targets: seq<nat>, replace: bool, end: seq<Job>)
    requires forall x :: x in imported <==> x in targets
    requires end == if replace then OnlyActive(stored, imported) else stored
    ensures OthersRetired(stored, targets, replace, end)
  {
  }

  /** Everything but the targets is retired, if asked for. */
  ghost predicate OthersRetired(stored: seq<Job>, targets: seq<nat>, replace: bool, end: seq<Job>) {
    && |end| == |stored|
    && (forall j: nat | j < |end| && j in targets :: end[j] == stored[j])
    && (forall j: nat | j < |end| && j !in targets :: end[j] == Retired(stored[j], replace))
  }

  /** Exactly the superseded jobs are retired. */
  ghost predicate SupersededRetired(p: Plan, jobs: seq<Job>, prepared: seq<Job>) {
    |prepared| == |jobs| && forall j: nat | j < |jobs| :: prepared[j] == Retired(jobs[j], Superseded(p, j))
  }

  lemma SyncEnds(start: Tables, rows: seq<Row>, replace: bool, p: Plan, prepared: seq<Job>, stored: Tables, end: seq<Job>,
                 targets: seq<nat>)
    requires Sound(p) && |p.rowKeys| == |rows| && |p.jobKeys| == |start.jobs| && |targets| == |rows|
    requires SupersededRetired(p, start.jobs, prepared)
    requires Grown(start.depts, stored.depts, rows) && RowsIn(rows, stored, targets)
    requires Placed(p, prepared, stored.jobs, targets) && OthersRetired(stored.jobs, targets, replace, end)
    ensures Synced(p, start, rows, replace, Tables(stored.depts, end), targets)
  {
    RowsEnd(p, rows, stored, end, prepared, targets);
    OthersEnd(p, start.jobs, prepared, stored.jobs, replace, end, targets);
  }

  /** Field by field, what a synchronisation leaves of a row and of a job outside the file. */
  lemma SyncedRows(p: Plan, start: Tables, rows: seq<Row>, replace: bool, end: Tables, targets: seq<nat>)
    requires Synced(p, start, rows, replace, end, targets)
    ensures |targets| == |rows| && |start.jobs| <= |end.jobs|
    ensures forall i | 0 <= i < |rows| :: 0 <= i < |targets| && targets[i] < |end.jobs| && var job := end.jobs[targets[i]];
        && job.entity == rows[i].entity && job.publicName == rows[i].publicName && job.positionName == rows[i].positionName
        && job.category == rows[i].category && job.details == rows[i].details && job.majors == rows[i].majors && job.active
        && PrimaryName(end.depts, job.department) == rows[i].path.primary && SecondaryName(end.depts, job.department) == rows[i].path.secondary
    ensures forall j | 0 <= j < |start.jobs| && j !in targets ::
      end.jobs[j] == start.jobs[j].(active := end.jobs[j].active) && (end.jobs[j].active ==> start.jobs[j].active && !replace)
    ensures forall j | |start.jobs| <= j < |end.jobs| :: j in targets
  {
    forall i | 0 <= i < |rows| ensures targets[i] < |end.jobs| && var job := end.jobs[targets[i]];
        && job.entity == rows[i].entity && job.publicName == rows[i].publicName && job.positionName == rows[i].positionName
        && job.category == rows[i].category && job.details == rows[i].details && job.majors == rows[i].majors && job.active
        && PrimaryName(end.depts, job.department) == rows[i].path.primary && SecondaryName(end.depts, job.department) == rows[i].path.secondary
    {
      assert PathFound(end.depts, rows[i]) && end.jobs[targets[i]] == JobOf(end.depts, rows[i]);
    }
  }

  /** Some active job has every value of the row, below the department that the row names. */
  ghost predicate IsStored(depts: seq<Department>, jobs: seq<Job>, row: Row) {
    exists j | 0 <= j < |jobs| ::
      && jobs[j].entity == row.entity && jobs[j].publicName == row.publicName && jobs[j].positionName == row.positionName
      && jobs[j].category == row.category && jobs[j].details == row.details && jobs[j].majors == row.majors && jobs[j].active
      && PrimaryName(depts, jobs[j].department) == row.path.primary
      && SecondaryName(depts, jobs[j].department) == row.path.secondary
  }

  lemma AllAreStored(depts: seq<Department>, jobs: seq<Job>, rows: seq<Row>, targets: seq<nat>)
    requires |targets| == |rows|
    requires forall i | 0 <= i < |rows| :: 0 <= i < |targets| && targets[i] < |jobs| && var job := jobs[targets[i]];
      && job.entity == rows[i].entity && job.publicName == rows[i].publicName && job.positionName == rows[i].positionName
      && job.category == rows[i].category && job.details == rows[i].details && job.majors == rows[i].majors && job.active
      && PrimaryName(depts, job.department) == rows[i].path.primary && SecondaryName(depts, job.department) == rows[i].path.secondary
    ensures forall row | row in rows :: IsStored(depts, jobs, row)
  {
    forall row | row in rows ensures IsStored(depts, jobs, row) {
      var i :| 0 <= i < |rows| && rows[i] == row;
      assert targets[i] < |jobs|;
    }
  }

  /** Where the loop over the rows stands after |targets| rows. */
  ghost predicate Stage(p: Plan, rows: seq<Row>, start: Tables, now: Tables, byKey: map<Key, nat>, targets: seq<nat>) {
    && RowsIn(rows, now, targets) && Placed(p, start.jobs, now.jobs, targets)
    && Looks(p, byKey, |targets|) && GrownSoFar(start.depts, now.depts, rows)
  }

  lemma JobsStep(norm: Norm, p: Plan, rows: seq<Row>, jobs: seq<Job>, now: Tables, targets: seq<nat>, now': Tables, id: nat, job: Job)
    requires Sound(p) && Coherent(norm, p) && |p.jobKeys| == |jobs| && |targets| < |p.rowKeys| && Placed(p, jobs, now.jobs, targets)
    requires TargetOk(p, |targets|, id) && (id < |jobs| || id == |now.jobs|)
    requires RowsIn(rows, now, targets) && |targets| < |rows| && now.depts <= now'.depts
    requires RowStored(now', rows[|targets|], id) && now'.jobs == Written(now.jobs, id, job)
    ensures id !in targets && Placed(p, jobs, now'.jobs, targets + [id]) && RowsIn(rows, now', targets + [id])
  {
    PlaceStep(norm, p, jobs, now.jobs, targets, job, id);
    RowsStep(rows, now, targets, now', id, job);
  }

  lemma LooksAfter(p: Plan, byKey: map<Key, nat>, reusable: map<Key, nat>, n: nat, id: nat)
    requires n < |p.rowKeys| && Looks(p, byKey, n)
    ensures Looks(p, if Choice(byKey, reusable, p.rowKeys[n]).None? then byKey[p.rowKeys[n] := id] else byKey, n + 1)
  {
    LooksNext(p, byKey, n, id);
  }

  class Table {
    const norm: Norm
    var depts: seq<Department>
    var jobs: seq<Job>

    /** The jobs by key; fails with the ids of all jobs that share a key. */
    method ExistingJobs() returns (r: Result<map<Key, nat>, set<nat>>)
      ensures r.Ok? <==> Distinct(Keys(norm, depts, jobs))
      ensures r.Ok? ==> Indexed(Keys(norm, depts, jobs), |jobs|, r.value)
      ensures r.Err? ==> forall j: nat :: j in r.error <==> Repeats(Keys(norm, depts, jobs), |jobs|, j)
    {
      var keys := Keys(norm, depts, jobs);
      var byKey, repeated := IndexKeys(keys);
      NoRepeatsIffDistinct(keys, repeated);
      return if repeated != {} then Err(repeated) else Ok(byKey);
    }

    /** Retires the candidates that fit some row of their group. */
    method DeactivateFitting(p: Plan, candidates: seq<nat>, items: seq<nat>)
      requires Within(items, |p.rooted|) && Within(candidates, |jobs|) && |p.loose| == |jobs|
      modifies this`jobs
      ensures |jobs| == |old(jobs)|
      ensures forall j: nat | j < |jobs| :: jobs[j] == Retired(old(jobs)[j], j in candidates && FitsSome(p, j, items))
    {
      for a := 0 to |candidates|
        invariant |jobs| == |old(jobs)|
        invariant forall j: nat | j < |jobs| :: jobs[j] == Retired(old(jobs)[j], j in candidates[..a] && FitsSome(p, j, items))
      {
        TakeNext(candidates, a);
        var j := candidates[a];
        if FitsSome(p, j, items) && jobs[j].active {
          jobs := jobs[j := jobs[j].(active := false)];
        }
      }
      assert candidates[..|candidates|] == candidates;
    }

    /** Decides the legacy jobs of one legacy key: the only unmatched row may take one over, otherwise
        those that rows of the group could complete are retired. */
    method MigrateGroup(p: Plan, legacy: LegacyKey, items: seq<nat>, members: seq<nat>) returns (reused: Option<(nat, nat)>)
      requires Sound(p) && Coherent(norm, p) && IsGroup(p, legacy, items, members) && items != []
      requires |p.jobKeys| == |jobs|
      modifies this`jobs
      ensures |jobs| == |old(jobs)|
      ensures forall j: nat | j < |jobs| :: jobs[j] == Retired(old(jobs)[j], Legacy(p.jobKeys[j]) == legacy && Superseded(p, j))
      ensures forall i: nat, j: nat | i in items && j < |jobs| :: Reuses(p, j, i) <==> reused == Some((i, j))
      ensures reused.Some? ==> reused.value.0 in items && reused.value.1 < |jobs|
    {
      var unmatched, candidates := Unmatched(p, items), Candidates(p, members);
      GroupSizes(p, legacy, items, members);
      GroupRetires(p, legacy, items, members);
      GroupReuses(norm, p, legacy, items, members);
      if |items| == 1 && p.rowKeys[items[0]] in p.jobKeys {
        DeactivateFitting(p, candidates, items);
        return None;
      }
      if |unmatched| == 1 {
        var matching := Completable(p, candidates, unmatched[0]);
        assert unmatched == [unmatched[0]] && (|matching| == 1 ==> matching == [matching[0]]);
        return if |matching| == 1 then Some((unmatched[0], matching[0])) else None;
      }
      if |items| > 1 {
        DeactivateFitting(p, candidates, items);
      }
      return None;
    }

    /** Retires the superseded legacy jobs, and returns by key which legacy job each row takes over. */
    method PrepareMigrations(p: Plan) returns (reusable: map<Key, nat>)
      requires Sound(p) && Coherent(norm, p) && |p.jobKeys| == |jobs|
      modifies this`jobs
      ensures SupersededRetired(p, old(jobs), jobs)
      ensures ReuseIsKnown(p, reusable)
    {
      var order, rowGroups, jobGroups := GroupByLegacyKey(p);
      reusable := map[];
      ghost var seen: seq<LegacyKey> := [];
      for n := 0 to |order|
        invariant seen == order[..n]
        invariant RetiredSoFar(p, old(jobs), seen, jobs)
        invariant ReuseKnown(p, seen, reusable)
      {
        TakeNext(order, n);
        var legacy := order[n];
        var items, members := rowGroups[legacy], Members(jobGroups, legacy);
        ghost var before := jobs;
        var reused := MigrateGroup(p, legacy, items, members);
        RetireStep(p, old(jobs), seen, before, legacy, jobs);
        ReuseStep(p, seen, reusable, legacy, items, members, reused);
        if reused.Some? {
          reusable := reusable[p.rowKeys[reused.value.0] := reused.value.1];
        }
        seen := seen + [legacy];
      }
      assert seen == order;
    }

    /** Writes a row over the job found for it, or creates one. */
    method StoreRow(row: Row, found: Option<nat>, ghost paths: set<Path>) returns (id: nat)
      requires Fits(depts, paths) && row.path in paths && (found.Some? ==> found.value < |jobs|)
      modifies this`depts, this`jobs
      ensures old(depts) <= depts && Fits(depts, paths)
      ensures Find(old(depts), row.path).Some? ==> depts == old(depts)
      ensures id == if found.Some? then found.value else |old(jobs)|
      ensures jobs == Written(old(jobs), id, JobOf(depts, row))
      ensures RowStored(Tables(depts, jobs), row, id)
      ensures id < |jobs| && var job := jobs[id];
        && job.entity == row.entity && job.publicName == row.publicName && job.positionName == row.positionName
        && job.category == row.category && job.details == row.details && job.majors == row.majors && job.active
        && PrimaryName(depts, job.department) == row.path.primary && SecondaryName(depts, job.department) == row.path.secondary
        && job.department.Some? && job.department.value < |depts|
    {
      GetDepartmentFinds(depts, row.path);
      GetDepartmentNames(depts, paths, row.path);
      var (tree, department) := GetDepartment(depts, row.path.primary, row.path.secondary);
      depts := tree;
      var values := Job(row.entity, Some(department), row.publicName, row.positionName, row.category, row.details, row.majors, true);
      match found
      case Some(job) =>
        id := job;
        jobs := jobs[id := values];
      case None =>
        id := |jobs|;
        jobs := jobs + [values];
    }

    /** Writes the next row. */
    method StoreNext(rows: seq<Row>, p: Plan, ghost start: Tables, byKey: map<Key, nat>, reusable: map<Key, nat>, n: nat,
                     ghost targets: seq<nat>)
      returns (byKey': map<Key, nat>, id: nat)
      requires Sound(p) && Coherent(norm, p) && |p.rowKeys| == |rows| && |p.jobKeys| == |start.jobs| && |targets| == n < |rows|
      requires Stage(p, rows, start, Tables(depts, jobs), byKey, targets) && ReuseIsKnown(p, reusable)
      modifies this`depts, this`jobs
      ensures id !in targets && Stage(p, rows, start, Tables(depts, jobs), byKey', targets + [id])
    {
      ghost var before := Tables(depts, jobs);
      ChoiceIsTarget(p, byKey, reusable, n);
      var found := Choice(byKey, reusable, p.rowKeys[n]);
      assert rows[n] in rows;
      id := StoreRow(rows[n], found, Paths(rows));
      JobsStep(norm, p, rows, start.jobs, before, targets, Tables(depts, jobs), id, JobOf(depts, rows[n]));
      LooksAfter(p, byKey, reusable, n, id);
      byKey' := if found.None? then byKey[p.rowKeys[n] := id] else byKey;
    }

    /** Writes all rows and returns the ids of their jobs. */
    method StoreRows(rows: seq<Row>, p: Plan, index: map<Key, nat>, reusable: map<Key, nat>)
      returns (imported: set<nat>, ghost targets: seq<nat>)
      requires Sound(p) && Coherent(norm, p) && |p.rowKeys| == |rows| && |p.jobKeys| == |jobs|
      requires Fits(depts, Paths(rows)) && Looks(p, index, 0) && ReuseIsKnown(p, reusable)
      modifies this`depts, this`jobs
      ensures Grown(old(depts), depts, rows)
      ensures RowsIn(rows, Tables(depts, jobs), targets) && Placed(p, old(jobs), jobs, targets) && |targets| == |rows|
      ensures |imported| == |rows| && forall x :: x in imported <==> x in targets
    {
      var byKey: map<Key, nat> := index;
      imported, targets := {}, [];
      ghost var start := Tables(depts, jobs);
      for n := 0 to |rows|
        invariant |targets| == n && Stage(p, rows, start, Tables(depts, jobs), byKey, targets)
        invariant |imported| == |targets| && forall x :: x in imported <==> x in targets
      {
        var id;
        byKey, id := StoreNext(rows, p, start, byKey, reusable, n, targets);
        imported, targets := imported + {id}, targets + [id];
      }
      AllGrown(start.depts, rows, Tables(depts, jobs), targets);
    }

    /** The synchronisation itself, by the decisions of plan p and the index of the jobs by key. */
    method SyncByPlan(rows: seq<Row>, replace: bool, p: Plan, index: map<Key, nat>) returns (count: nat, ghost targets: seq<nat>)
      requires Ready(Tables(depts, jobs), rows) && Sound(p) && Coherent(norm, p) && |p.rowKeys| == |rows|
      requires |p.jobKeys| == |jobs| && Indexed(p.jobKeys, |jobs|, index)
      modifies this`depts, this`jobs
      ensures Synced(p, old(Tables(depts, jobs)), rows, replace, Tables(depts, jobs), targets) && count == |rows|
    {
      ghost var start := Tables(depts, jobs);
      var reusable: map<Key, nat> := PrepareMigrations(p);
      ghost var prepared := jobs;
      var imported: set<nat>;
      imported, targets := StoreRows(rows, p, index, reusable);
      ghost var stored := jobs;
      if replace {
        jobs := OnlyActive(jobs, imported);
      }
      EndOfReplace(stored, imported, targets, replace, jobs);
      SyncEnds(start, rows, replace, p, prepared, Tables(depts, stored), jobs, targets);
      count := |imported|;
    }

    /** Synchronises the job table with the rows of a file: every row is stored as its own job, superseded
        legacy jobs are retired, and replace mode retires every job outside the file.  Fails, without any
        change, if and only if the table has repeated keys. */
    method SyncJobs(rows: seq<Row>, replace: bool) returns (r: Result<nat, ImportError>, ghost targets: seq<nat>)
      requires Ready(Tables(depts, jobs), rows) && Distinct(RowKeys(norm, rows))
      modifies this`depts, this`jobs
      ensures r.Ok? <==> Sound(PlanOf(norm, old(Tables(depts, jobs)), rows))
      ensures r.Ok? ==>
        var start := old(Tables(depts, jobs));
        Synced(PlanOf(norm, start, rows), start, rows, replace, Tables(depts, jobs), targets)
      ensures r.Ok? ==> r.value == |rows| == |targets| && |old(jobs)| <= |jobs|
      ensures r.Ok? ==> forall i | 0 <= i < |rows| :: 0 <= i < |targets| && targets[i] < |jobs| && var job := jobs[targets[i]];
        && job.entity == rows[i].entity && job.publicName == rows[i].publicName && job.positionName == rows[i].positionName
        && job.category == rows[i].category && job.details == rows[i].details && job.majors == rows[i].majors && job.active
        && PrimaryName(depts, job.department) == rows[i].path.primary && SecondaryName(depts, job.department) == rows[i].path.secondary
      ensures r.Ok? ==> forall j | 0 <= j < |old(jobs)| && j !in targets ::
        j < |jobs| && jobs[j] == old(jobs)[j].(active := jobs[j].active) && (jobs[j].active ==> old(jobs)[j].active && !replace)
      ensures r.Ok? ==> forall j | |old(jobs)| <= j < |jobs| :: j in targets
      ensures r.Err? ==> depts == old(depts) && jobs == old(jobs)
    {
      ghost var start := Tables(depts, jobs);
      var p := PlanOf(norm, Tables(depts, jobs), rows);
      var existing: Result<map<Key, nat>, set<nat>> := ExistingJobs();
      if existing.Err? {
        targets := [];
        return Err(RepeatedJobs(existing.error)), targets;
      }
      PlanIsUnique(norm, start, rows, p);
      PlansAreCoherent(norm, start, rows, p);
      var count;
      count, targets := SyncByPlan(rows, replace, p, existing.value);
      SyncedRows(p, start, rows, replace, Tables(depts, jobs), targets);
      return Ok(count), targets;
    }

    /** The job part of an import: reads the file and synchronises the table with what it holds.  A file
        that is refused changes nothing, and a file without a usable row changes nothing even when it
        replaces. */
    method Import(file: seq<Row>, replace: bool) returns (r: Result<nat, ImportError>, ghost targets: seq<nat>)
      requires Usable(file) != [] ==> Ready(Tables(depts, jobs), Usable(file))
      modifies this`depts, this`jobs
      ensures r.Ok? ==> r.value == |Usable(file)|
      ensures r.Ok? && Usable(file) != [] ==>
        var start, rows := old(Tables(depts, jobs)), Usable(file);
        && Sound(PlanOf(norm, start, rows))
        && Synced(PlanOf(norm, start, rows), start, rows, replace, Tables(depts, jobs), targets)
      ensures r.Ok? ==> forall row | row in file && (row.positionName != "" || row.publicName != "") && row.details.responsibilities != "" ::
        IsStored(depts, jobs, row)
      ensures r.Err? || Usable(file) == [] ==> depts == old(depts) && jobs == old(jobs)
      ensures r.Err? <==>
        || (exists row | row in Named(file) :: row.path.secondary == "")
        || !Distinct(RowKeys(norm, Named(file)))
        || (Usable(file) != [] && !Distinct(Keys(norm, old(depts), old(jobs))))
    {
      targets := [];
      var rows := ReadRows(norm, file);
      if rows.Err? {
        return Err(rows.error), targets;
      }
      if rows.value == [] {
        return Ok(0), targets;
      }
      r, targets := SyncJobs(rows.value, replace);
      if r.Ok? {
        AllAreStored(depts, jobs, rows.value, targets);
      }
    }
  }
}
