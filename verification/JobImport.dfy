/** Synchronising the job table with an imported file.  A job is identified by its position in the
    list of all jobs ever created. */
module JobImport {
  import opened Wrappers
  import opened Departments

  datatype Details = Details(
    isPublic: bool, jobFamily: string, location: string, education: string, responsibilities: string, headcount: int)

  /** A valid row of the file; every text is trimmed. */
  datatype Row = Row(
    entity: string, path: Path, publicName: string, positionName: string, category: string,
    details: Details, majors: seq<string>)

  datatype Job = Job(
    entity: string, department: Option<nat>, publicName: string, positionName: string, category: string,
    details: Details, majors: seq<string>, active: bool)

  /** Parts of a key, with white space removed and case ignored. */
  datatype Key = Key(entity: string, primary: string, secondary: string, publicName: string, positionName: string, category: string)

  datatype LegacyKey = LegacyKey(entity: string, secondary: string, publicName: string, positionName: string, category: string)

  type Norm = string -> string

  function RowKey(norm: Norm, row: Row): Key {
    Key(norm(row.entity), norm(row.path.primary), norm(row.path.secondary),
        norm(row.publicName), norm(row.positionName), norm(row.category))
  }

  function Legacy(key: Key): LegacyKey {
    LegacyKey(key.entity, key.secondary, key.publicName, key.positionName, key.category)
  }

  function JobKey(norm: Norm, depts: seq<Department>, job: Job): Key {
    Key(norm(job.entity), norm(PrimaryName(depts, job.department)), norm(SecondaryName(depts, job.department)),
        norm(job.publicName), norm(job.positionName), norm(job.category))
  }

  /** The key of every job of the table, in order. */
  function Keys(norm: Norm, depts: seq<Department>, jobs: seq<Job>): (keys: seq<Key>)
    ensures |keys| == |jobs| && forall j | 0 <= j < |jobs| :: keys[j] == JobKey(norm, depts, jobs[j])
  {
    if jobs == [] then [] else Keys(norm, depts, jobs[..|jobs| - 1]) + [JobKey(norm, depts, jobs[|jobs| - 1])]
  }

  function RowKeys(norm: Norm, rows: seq<Row>): (keys: seq<Key>)
    ensures |keys| == |rows| && forall i | 0 <= i < |rows| :: keys[i] == RowKey(norm, rows[i])
  {
    if rows == [] then [] else RowKeys(norm, rows[..|rows| - 1]) + [RowKey(norm, rows[|rows| - 1])]
  }

  predicate WithoutPrimary(depts: seq<Department>, job: Job) {
    PrimaryName(depts, job.department) == ""
  }

  // ----- What an import decides -----

  /** The facts an import decides by: the key of every job, which jobs lack a primary department, and
      the key of every row together with whether its row has a primary department. */
  datatype Plan = Plan(jobKeys: seq<Key>, loose: seq<bool>, rowKeys: seq<Key>, rooted: seq<bool>)

  ghost predicate Sound(p: Plan) {
    && |p.loose| == |p.jobKeys| && |p.rooted| == |p.rowKeys|
    && Distinct(p.jobKeys) && Distinct(p.rowKeys)
  }

  /** A job without a primary department carries the key of a row without one, as far as primaries go. */
  ghost predicate Coherent(norm: Norm, p: Plan) {
    && (forall j | 0 <= j < |p.jobKeys| && j < |p.loose| && p.loose[j] :: p.jobKeys[j].primary == norm(""))
    && (forall i | 0 <= i < |p.rowKeys| && i < |p.rooted| && !p.rooted[i] :: p.rowKeys[i].primary == norm(""))
  }

  ghost predicate Matched(p: Plan, i: nat) {
    i < |p.rowKeys| && p.rowKeys[i] in p.jobKeys
  }

  /** Row i is the only row of its legacy key that no job matches. */
  ghost predicate SoleUnmatched(p: Plan, i: nat) {
    && i < |p.rowKeys| && !Matched(p, i)
    && forall k: nat | k < |p.rowKeys| && k != i && Legacy(p.rowKeys[k]) == Legacy(p.rowKeys[i]) :: Matched(p, k)
  }

  /** Job j is a legacy job that row i could complete: same legacy key, not itself imported, and only the
      row names a primary department. */
  ghost predicate CanComplete(p: Plan, j: nat, i: nat) {
    && j < |p.jobKeys| && j < |p.loose| && i < |p.rowKeys| && i < |p.rooted|
    && Legacy(p.jobKeys[j]) == Legacy(p.rowKeys[i]) && p.jobKeys[j] !in p.rowKeys
    && p.loose[j] && p.rooted[i]
  }

  /** Row i takes over legacy job j. */
  ghost predicate Reuses(p: Plan, j: nat, i: nat) {
    SoleUnmatched(p, i) && CanComplete(p, j, i)
  }

  /** Legacy job j is superseded: a row could complete it, but its legacy key has no sole unmatched row. */
  ghost predicate Superseded(p: Plan, j: nat) {
    && (exists i: nat | i < |p.rowKeys| :: CanComplete(p, j, i))
    && !exists i: nat | i < |p.rowKeys| :: SoleUnmatched(p, i) && Legacy(p.rowKeys[i]) == Legacy(p.jobKeys[j])
  }

  /** Where row i goes: to the job with its key, to the legacy job it takes over, or to a new job. */
  ghost predicate TargetOk(p: Plan, i: nat, target: nat) {
    if Matched(p, i) then target < |p.jobKeys| && p.jobKeys[target] == p.rowKeys[i]
    else if exists j: nat | j < |p.jobKeys| :: Reuses(p, j, i) then target < |p.jobKeys| && Reuses(p, target, i)
    else target >= |p.jobKeys|
  }

  /** At most one legacy job per legacy key can be completed. */
  lemma CompletableIsUnique(norm: Norm, p: Plan, a: nat, b: nat, i: nat, k: nat)
    requires Sound(p) && Coherent(norm, p) && a < |p.jobKeys| && b < |p.jobKeys| && i < |p.rowKeys| && k < |p.rowKeys|
    requires CanComplete(p, a, i) && CanComplete(p, b, k) && Legacy(p.rowKeys[i]) == Legacy(p.rowKeys[k])
    ensures a == b
  {
    assert p.jobKeys[a] == p.jobKeys[b];
  }

  /** Every row ends on its own job. */
  lemma TargetsAreDistinct(norm: Norm, p: Plan, i: nat, k: nat, a: nat, b: nat)
    requires Sound(p) && Coherent(norm, p) && i < |p.rowKeys| && k < |p.rowKeys| && i != k
    requires TargetOk(p, i, a) && TargetOk(p, k, b) && a < |p.jobKeys|
    ensures a != b
  {
    assert p.rowKeys[i] != p.rowKeys[k];
  }

  /** A job that could complete a row whose legacy key has a sole unmatched row is taken over by it. */
  lemma SoleUnmatchedTakesOver(norm: Norm, p: Plan, j: nat, i: nat, k: nat)
    requires Sound(p) && Coherent(norm, p) && j < |p.jobKeys| && i < |p.rowKeys| && k < |p.rowKeys|
    requires CanComplete(p, j, i) && SoleUnmatched(p, k) && Legacy(p.rowKeys[k]) == Legacy(p.jobKeys[j])
    ensures Reuses(p, j, k)
  {
    assert p.jobKeys[j] in p.jobKeys;
    assert p.jobKeys[j] != p.rowKeys[k];
  }

  /** Only its target can carry the key of a row. */
  lemma OutsiderHasOtherKey(p: Plan, i: nat, target: nat, b: nat)
    requires Sound(p) && i < |p.rowKeys| && TargetOk(p, i, target) && b < |p.jobKeys| && b != target
    ensures p.rowKeys[i] != p.jobKeys[b]
  {
    assert p.jobKeys[b] in p.jobKeys;
  }

  // ----- What an import does to the tables -----

  datatype Tables = Tables(depts: seq<Department>, jobs: seq<Job>)

  function Loose(depts: seq<Department>, jobs: seq<Job>): (r: seq<bool>)
    ensures |r| == |jobs| && forall j | 0 <= j < |jobs| :: r[j] == WithoutPrimary(depts, jobs[j])
  {
    if jobs == [] then [] else Loose(depts, jobs[..|jobs| - 1]) + [WithoutPrimary(depts, jobs[|jobs| - 1])]
  }

  function Rooted(rows: seq<Row>): (r: seq<bool>)
    ensures |r| == |rows| && forall i | 0 <= i < |rows| :: r[i] == (rows[i].path.primary != "")
  {
    if rows == [] then [] else Rooted(rows[..|rows| - 1]) + [rows[|rows| - 1].path.primary != ""]
  }

  function PlanOf(norm: Norm, t: Tables, rows: seq<Row>): Plan {
    Plan(Keys(norm, t.depts, t.jobs), Loose(t.depts, t.jobs), RowKeys(norm, rows), Rooted(rows))
  }

  /** The plan says about job j what the tables say. */
  ghost predicate DescribesJob(norm: Norm, t: Tables, p: Plan, j: nat) {
    && j < |t.jobs| && j < |p.jobKeys| && j < |p.loose|
    && p.jobKeys[j] == JobKey(norm, t.depts, t.jobs[j]) && p.loose[j] == WithoutPrimary(t.depts, t.jobs[j])
  }

  ghost predicate DescribesRow(norm: Norm, rows: seq<Row>, p: Plan, i: nat) {
    && i < |rows| && i < |p.rowKeys| && i < |p.rooted|
    && p.rowKeys[i] == RowKey(norm, rows[i]) && p.rooted[i] == (rows[i].path.primary != "")
  }

  /** The plan describes these tables and rows. */
  ghost predicate IsPlan(norm: Norm, t: Tables, rows: seq<Row>, p: Plan) {
    && |p.jobKeys| == |p.loose| == |t.jobs| && |p.rowKeys| == |p.rooted| == |rows|
    && (forall j: nat {:trigger DescribesJob(norm, t, p, j)} | j < |t.jobs| :: DescribesJob(norm, t, p, j))
    && (forall i: nat {:trigger DescribesRow(norm, rows, p, i)} | i < |rows| :: DescribesRow(norm, rows, p, i))
  }

  /** There is exactly one plan for some tables and rows. */
  lemma PlanIsUnique(norm: Norm, t: Tables, rows: seq<Row>, p: Plan)
    ensures IsPlan(norm, t, rows, p) <==> p == PlanOf(norm, t, rows)
  {
    var q := PlanOf(norm, t, rows);
    assert IsPlan(norm, t, rows, q);
    if IsPlan(norm, t, rows, p) {
      forall j: nat | j < |t.jobs| ensures p.jobKeys[j] == q.jobKeys[j] && p.loose[j] == q.loose[j] {
        assert DescribesJob(norm, t, p, j);
      }
      forall i: nat | i < |rows| ensures p.rowKeys[i] == q.rowKeys[i] && p.rooted[i] == q.rooted[i] {
        assert DescribesRow(norm, rows, p, i);
      }
      assert p.jobKeys == q.jobKeys && p.loose == q.loose && p.rowKeys == q.rowKeys && p.rooted == q.rooted;
    }
  }

  lemma PlansAreCoherent(norm: Norm, t: Tables, rows: seq<Row>, p: Plan)
    requires IsPlan(norm, t, rows, p) && Sound(p)
    ensures Coherent(norm, p)
  {
    forall j: nat | j < |p.jobKeys| && p.loose[j] ensures p.jobKeys[j].primary == norm("") {
      assert DescribesJob(norm, t, p, j);
    }
    forall i: nat | i < |p.rowKeys| && !p.rooted[i] ensures p.rowKeys[i].primary == norm("") {
      assert DescribesRow(norm, rows, p, i);
    }
  }

  function Paths(rows: seq<Row>): set<Path> {
    set row | row in rows :: row.path
  }

  /** The department references of the job table are sound and the tree suits the file. */
  ghost predicate Ready(t: Tables, rows: seq<Row>) {
    && Fits(t.depts, Paths(rows))
    && forall j | 0 <= j < |t.jobs| :: t.jobs[j].department.Some? ==> t.jobs[j].department.value < |t.depts|
  }

  /** The job that a row describes, below the department that the tree has for its path. */
  function JobOf(depts: seq<Department>, row: Row): Job {
    Job(row.entity, Find(depts, row.path), row.publicName, row.positionName, row.category, row.details, row.majors, true)
  }

  /** The tree only grows, and only by what the rows lack. */
  ghost predicate Grown(depts: seq<Department>, depts': seq<Department>, rows: seq<Row>) {
    && depts <= depts' && Fits(depts', Paths(rows))
    && ((forall i | 0 <= i < |rows| :: Find(depts, rows[i].path).Some?) ==> depts' == depts)
    && forall i | 0 <= i < |rows| :: PathFound(depts', rows[i])
  }

  ghost predicate PathFound(depts: seq<Department>, row: Row) {
    var d := Find(depts, row.path);
    d.Some? && d.value < |depts| && PrimaryName(depts, d) == row.path.primary && SecondaryName(depts, d) == row.path.secondary
  }

  /** Every row is stored, as its own job, and new jobs are made for rows only. */
  ghost predicate RowsStored(p: Plan, rows: seq<Row>, t': Tables, targets: seq<nat>) {
    && |targets| == |rows| && Distinct(targets)
    && (forall i | 0 <= i < |rows| :: TargetOk(p, i, targets[i]))
    && (forall i | 0 <= i < |rows| :: targets[i] < |t'.jobs| && t'.jobs[targets[i]] == JobOf(t'.depts, rows[i]))
    && (forall j | |p.jobKeys| <= j < |t'.jobs| :: j in targets)
  }

  /** Every other job keeps its fields, and is active as before unless superseded or replaced. */
  ghost predicate OthersKept(p: Plan, jobs: seq<Job>, replace: bool, jobs': seq<Job>, targets: seq<nat>) {
    && |jobs| <= |jobs'|
    && forall j: nat | j < |jobs| && j !in targets ::
         jobs'[j] == jobs[j].(active := jobs[j].active && !replace && !Superseded(p, j))
  }

  /** What a synchronisation that decides by plan p makes of the tables t. */
  ghost predicate Synced(p: Plan, t: Tables, rows: seq<Row>, replace: bool, t': Tables, targets: seq<nat>) {
    && |p.rowKeys| == |rows| && |p.jobKeys| == |t.jobs|
    && Grown(t.depts, t'.depts, rows)
    && RowsStored(p, rows, t', targets)
    && OthersKept(p, t.jobs, replace, t'.jobs, targets)
  }

  // ----- The decisions of the next import -----

  /** How the decisions of the next import of the same file, p1, differ from those of this one, p: every
      target now carries the key of its row, and every other job is as it was. */
  ghost predicate Follows(p: Plan, p1: Plan, targets: seq<nat>) {
    && p1.rowKeys == p.rowKeys && p1.rooted == p.rooted && |p1.loose| == |p1.jobKeys| && |p.jobKeys| <= |p1.jobKeys|
    && |targets| == |p.rowKeys| && Distinct(targets)
    && (forall i | 0 <= i < |p.rowKeys| :: TargetOk(p, i, targets[i]))
    && (forall i | 0 <= i < |targets| :: targets[i] < |p1.jobKeys| && p1.jobKeys[targets[i]] == p.rowKeys[i])
    && (forall j: nat | j < |p.jobKeys| && j !in targets :: SameJob(p, p1, j))
    && (forall j: nat | |p.jobKeys| <= j < |p1.jobKeys| :: j in targets)
  }

  ghost predicate SameJob(p: Plan, p1: Plan, j: nat) {
    && j < |p.jobKeys| && j < |p1.jobKeys| && j < |p.loose| && j < |p1.loose|
    && p1.jobKeys[j] == p.jobKeys[j] && p1.loose[j] == p.loose[j]
  }

  lemma TargetKey(norm: Norm, t': Tables, rows: seq<Row>, p: Plan, p1: Plan, i: nat, target: nat)
    requires DescribesRow(norm, rows, p, i) && DescribesJob(norm, t', p1, target)
    requires t'.jobs[target] == JobOf(t'.depts, rows[i]) && PathFound(t'.depts, rows[i])
    ensures p1.jobKeys[target] == p.rowKeys[i]
  {
  }

  lemma OutsiderKey(norm: Norm, t: Tables, t': Tables, p: Plan, p1: Plan, j: nat)
    requires WellFormed(t.depts) && t.depts <= t'.depts && DescribesJob(norm, t, p, j) && DescribesJob(norm, t', p1, j)
    requires t.jobs[j].department.Some? ==> t.jobs[j].department.value < |t.depts|
    requires t'.jobs[j] == t.jobs[j].(active := t'.jobs[j].active)
    ensures SameJob(p, p1, j)
  {
    assert t'.depts == t.depts + t'.depts[|t.depts|..];
    NamesSurviveGrowth(t.depts, t'.depts[|t.depts|..], t.jobs[j].department);
  }

  /** An import sets up the next one. */
  lemma NextPlanFollows(
      norm: Norm, t: Tables, rows: seq<Row>, p: Plan, replace: bool, t': Tables, targets: seq<nat>, p1: Plan)
    requires Ready(t, rows) && IsPlan(norm, t, rows, p) && IsPlan(norm, t', rows, p1)
    requires Sound(p) && Synced(p, t, rows, replace, t', targets)
    ensures Follows(p, p1, targets)
  {
    forall i: nat | i < |rows| ensures p1.rowKeys[i] == p.rowKeys[i] && p1.rooted[i] == p.rooted[i] {
      assert DescribesRow(norm, rows, p, i) && DescribesRow(norm, rows, p1, i);
    }
    assert p1.rowKeys == p.rowKeys && p1.rooted == p.rooted;
    forall i: nat | i < |targets| ensures targets[i] < |p1.jobKeys| && p1.jobKeys[targets[i]] == p.rowKeys[i] {
      assert DescribesRow(norm, rows, p, i) && DescribesJob(norm, t', p1, targets[i]) && PathFound(t'.depts, rows[i]);
      TargetKey(norm, t', rows, p, p1, i, targets[i]);
    }
    forall j: nat | j < |p.jobKeys| && j !in targets ensures SameJob(p, p1, j) {
      assert DescribesJob(norm, t, p, j) && DescribesJob(norm, t', p1, j);
      OutsiderKey(norm, t, t', p, p1, j);
    }
  }

  /** If jobs and rows had pairwise distinct keys, so have the jobs afterwards. */
  lemma KeysStayDistinct(p: Plan, p1: Plan, targets: seq<nat>)
    requires Sound(p) && Follows(p, p1, targets)
    ensures Sound(p1)
  {
    forall a: nat, b: nat | a < b < |p1.jobKeys| ensures p1.jobKeys[a] != p1.jobKeys[b] {
      if a in targets {
        var i :| 0 <= i < |targets| && targets[i] == a;
        NoSharedKey(p, p1, targets, i, b);
      } else if b in targets {
        var k :| 0 <= k < |targets| && targets[k] == b;
        NoSharedKey(p, p1, targets, k, a);
      } else {
        assert SameJob(p, p1, a) && SameJob(p, p1, b);
      }
    }
  }

  lemma NoSharedKey(p: Plan, p1: Plan, targets: seq<nat>, i: nat, b: nat)
    requires Sound(p) && Follows(p, p1, targets) && i < |targets| && b < |p1.jobKeys| && b != targets[i]
    ensures p1.jobKeys[b] != p1.jobKeys[targets[i]]
  {
    if b in targets {
      var k :| 0 <= k < |targets| && targets[k] == b;
      assert p.rowKeys[i] != p.rowKeys[k];
    } else {
      assert SameJob(p, p1, b);
      OutsiderHasOtherKey(p, i, targets[i], b);
    }
  }

  /** The next import finds for every row the job that this one gave it. */
  lemma NextTarget(p: Plan, p1: Plan, targets: seq<nat>, i: nat, target: nat)
    requires Sound(p) && Sound(p1) && Follows(p, p1, targets) && i < |targets| && TargetOk(p1, i, target)
    ensures target == targets[i]
  {
    assert p1.jobKeys[targets[i]] == p1.rowKeys[i];
    assert Matched(p1, i);
  }

  /** What the next import would supersede, this one has superseded already. */
  lemma NothingNewIsSuperseded(norm: Norm, p: Plan, p1: Plan, targets: seq<nat>, j: nat)
    requires Sound(p) && Sound(p1) && Coherent(norm, p) && Follows(p, p1, targets)
    requires j < |p.jobKeys| && j !in targets && Superseded(p1, j)
    ensures Superseded(p, j)
  {
    assert SameJob(p, p1, j);
    var i: nat :| i < |p1.rowKeys| && CanComplete(p1, j, i);
    assert CanComplete(p, j, i);
    if k: nat :| k < |p.rowKeys| && SoleUnmatched(p, k) && Legacy(p.rowKeys[k]) == Legacy(p.jobKeys[j]) {
      SoleUnmatchedTakesOver(norm, p, j, i, k);
      assert TargetOk(p, k, targets[k]);
      CompletableIsUnique(norm, p, j, targets[k], k, k);
    }
  }

  // ----- Importing the same file again -----

  /** An import leaves tables that the same file can be imported into again. */
  lemma ReadyAgain(p: Plan, t: Tables, rows: seq<Row>, replace: bool, t': Tables, targets: seq<nat>)
    requires Ready(t, rows) && Sound(p) && Synced(p, t, rows, replace, t', targets)
    ensures Ready(t', rows)
  {
    forall j: nat | j < |t'.jobs| && t'.jobs[j].department.Some? ensures t'.jobs[j].department.value < |t'.depts| {
      if j in targets {
        var i :| 0 <= i < |rows| && targets[i] == j;
        assert t'.jobs[targets[i]] == JobOf(t'.depts, rows[i]) && PathFound(t'.depts, rows[i]);
      } else {
        assert t'.jobs[j].department == t.jobs[j].department;
      }
    }
  }

  lemma NextTreeIsSame(depts: seq<Department>, depts1: seq<Department>, depts2: seq<Department>, rows: seq<Row>)
    requires Grown(depts, depts1, rows) && Grown(depts1, depts2, rows)
    ensures depts2 == depts1
  {
    assert forall i | 0 <= i < |rows| :: PathFound(depts1, rows[i]);
  }

  lemma NextOutsider(norm: Norm, p: Plan, p1: Plan, jobs: seq<Job>, replace: bool, jobs1: seq<Job>, jobs2: seq<Job>,
                     targets: seq<nat>, j: nat)
    requires Sound(p) && Sound(p1) && Coherent(norm, p) && Follows(p, p1, targets)
    requires |p.jobKeys| == |jobs| && |p1.jobKeys| == |jobs1|
    requires OthersKept(p, jobs, replace, jobs1, targets) && OthersKept(p1, jobs1, replace, jobs2, targets)
    requires j < |jobs1| && j !in targets
    ensures jobs2[j] == jobs1[j]
  {
    if Superseded(p1, j) {
      NothingNewIsSuperseded(norm, p, p1, targets, j);
    }
  }

  lemma NextTargets(p: Plan, p1: Plan, targets: seq<nat>, targets2: seq<nat>)
    requires Sound(p) && Sound(p1) && Follows(p, p1, targets) && |targets2| == |targets|
    requires forall i | 0 <= i < |targets2| :: TargetOk(p1, i, targets2[i])
    ensures targets2 == targets
  {
    forall i | 0 <= i < |targets| ensures targets2[i] == targets[i] {
      NextTarget(p, p1, targets, i, targets2[i]);
    }
  }

  lemma NoNewJobs(p: Plan, p1: Plan, targets: seq<nat>, size: nat)
    requires Sound(p) && Follows(p, p1, targets) && |p1.jobKeys| <= size
    requires forall j: nat | |p1.jobKeys| <= j < size :: j in targets
    ensures size == |p1.jobKeys|
  {
    assert size > |p1.jobKeys| ==> |p1.jobKeys| in targets;
  }

  lemma NextJobsAreSame(norm: Norm, p: Plan, p1: Plan, jobs: seq<Job>, rows: seq<Row>, replace: bool, t1: Tables, t2: Tables, targets: seq<nat>)
    requires Sound(p) && Sound(p1) && Coherent(norm, p) && Follows(p, p1, targets) && |rows| == |p.rowKeys|
    requires |p.jobKeys| == |jobs| && |p1.jobKeys| == |t1.jobs| && t2.depts == t1.depts
    requires RowsStored(p, rows, t1, targets) && RowsStored(p1, rows, t2, targets)
    requires OthersKept(p, jobs, replace, t1.jobs, targets) && OthersKept(p1, t1.jobs, replace, t2.jobs, targets)
    ensures t2.jobs == t1.jobs
  {
    NoNewJobs(p, p1, targets, |t2.jobs|);
    forall j: nat | j < |t1.jobs| ensures t2.jobs[j] == t1.jobs[j] {
      if j in targets {
        var i :| 0 <= i < |targets| && targets[i] == j;
        assert t1.jobs[targets[i]] == JobOf(t1.depts, rows[i]);
      } else {
        NextOutsider(norm, p, p1, jobs, replace, t1.jobs, t2.jobs, targets, j);
      }
    }
  }

  /** Importing the same file twice leaves exactly what importing it once left: the same jobs with the
      same fields, majors and states, no new job and no further deactivation, and the same tree; the
      second import never fails on a repeated key. */
  lemma ImportIsIdempotent(norm: Norm, t: Tables, rows: seq<Row>, p: Plan, replace: bool, t1: Tables, targets1: seq<nat>,
                           p1: Plan, t2: Tables, targets2: seq<nat>)
    requires Ready(t, rows) && IsPlan(norm, t, rows, p) && IsPlan(norm, t1, rows, p1)
    requires Sound(p) && Synced(p, t, rows, replace, t1, targets1)
    ensures Ready(t1, rows) && Sound(p1)
    ensures Synced(p1, t1, rows, replace, t2, targets2) ==> t2 == t1 && targets2 == targets1
  {
    ReadyAgain(p, t, rows, replace, t1, targets1);
    NextPlanFollows(norm, t, rows, p, replace, t1, targets1, p1);
    KeysStayDistinct(p, p1, targets1);
    if Synced(p1, t1, rows, replace, t2, targets2) {
      NextTargets(p, p1, targets1, targets2);
      NextTreeIsSame(t.depts, t1.depts, t2.depts, rows);
      PlansAreCoherent(norm, t, rows, p);
      NextJobsAreSame(norm, p, p1, t.jobs, rows, replace, t1, t2, targets1);
    }
  }

  /** Replace mode leaves active exactly the jobs of the rows. */
  lemma ReplaceActivatesExactlyTheRows(p: Plan, t: Tables, rows: seq<Row>, t': Tables, targets: seq<nat>, j: nat)
    requires Sound(p) && Synced(p, t, rows, true, t', targets) && j < |t'.jobs|
    ensures t'.jobs[j].active <==> j in targets
  {
    if j in targets {
      var i :| 0 <= i < |rows| && targets[i] == j;
      assert t'.jobs[targets[i]] == JobOf(t'.depts, rows[i]);
    }
  }

  /** An incremental import deactivates nothing but superseded legacy jobs, and reactivates only rows. */
  lemma IncrementalKeepsTheRest(p: Plan, t: Tables, rows: seq<Row>, t': Tables, targets: seq<nat>, j: nat)
    requires Sound(p) && Synced(p, t, rows, false, t', targets) && j < |t.jobs| && j !in targets
    ensures t'.jobs[j] == t.jobs[j] || (t.jobs[j].active && Superseded(p, j) && !t'.jobs[j].active)
  {
    assert t'.jobs[j] == t.jobs[j].(active := t.jobs[j].active && !Superseded(p, j));
  }

  // ----- The decisions in terms of the file and the tables -----

  /** A row and a job have the same key if and only if all six parts agree, up to the normalisation. */
  predicate SameKey(norm: Norm, depts: seq<Department>, job: Job, row: Row) {
    && norm(job.entity) == norm(row.entity) && norm(PrimaryName(depts, job.department)) == norm(row.path.primary)
    && norm(SecondaryName(depts, job.department)) == norm(row.path.secondary) && norm(job.publicName) == norm(row.publicName)
    && norm(job.positionName) == norm(row.positionName) && norm(job.category) == norm(row.category)
  }

  /** The same without the primary department. */
  predicate SameLegacyKey(norm: Norm, depts: seq<Department>, job: Job, row: Row) {
    && norm(job.entity) == norm(row.entity) && norm(SecondaryName(depts, job.department)) == norm(row.path.secondary)
    && norm(job.publicName) == norm(row.publicName) && norm(job.positionName) == norm(row.positionName)
    && norm(job.category) == norm(row.category)
  }

  /** A row that no job has the key of. */
  ghost predicate IsNew(norm: Norm, t: Tables, row: Row) {
    forall j | 0 <= j < |t.jobs| :: !SameKey(norm, t.depts, t.jobs[j], row)
  }

  /** A job that a row with a primary department could complete: without one itself, not in the file, and otherwise
      like the row. */
  ghost predicate CouldComplete(norm: Norm, t: Tables, rows: seq<Row>, j: nat, i: nat) {
    && j < |t.jobs| && i < |rows| && SameLegacyKey(norm, t.depts, t.jobs[j], rows[i])
    && PrimaryName(t.depts, t.jobs[j].department) == "" && rows[i].path.primary != ""
    && forall k | 0 <= k < |rows| :: !SameKey(norm, t.depts, t.jobs[j], rows[k])
  }

  /** Row i is the only new row with the legacy key of job j. */
  ghost predicate OnlyNewRow(norm: Norm, t: Tables, rows: seq<Row>, j: nat, i: nat) {
    && j < |t.jobs| && i < |rows| && SameLegacyKey(norm, t.depts, t.jobs[j], rows[i]) && IsNew(norm, t, rows[i])
    && forall k | 0 <= k < |rows| && k != i && SameLegacyKey(norm, t.depts, t.jobs[j], rows[k]) :: !IsNew(norm, t, rows[k])
  }

  lemma KeysCompare(norm: Norm, t: Tables, rows: seq<Row>, j: nat, i: nat)
    requires j < |t.jobs| && i < |rows|
    ensures var p := PlanOf(norm, t, rows);
      && (p.jobKeys[j] == p.rowKeys[i] <==> SameKey(norm, t.depts, t.jobs[j], rows[i]))
      && (Legacy(p.jobKeys[j]) == Legacy(p.rowKeys[i]) <==> SameLegacyKey(norm, t.depts, t.jobs[j], rows[i]))
  {
  }

  lemma NewIffUnmatched(norm: Norm, t: Tables, rows: seq<Row>, i: nat)
    requires i < |rows|
    ensures Matched(PlanOf(norm, t, rows), i) <==> !IsNew(norm, t, rows[i])
  {
    var p := PlanOf(norm, t, rows);
    forall j: nat | j < |t.jobs| ensures p.jobKeys[j] == p.rowKeys[i] <==> SameKey(norm, t.depts, t.jobs[j], rows[i]) {
      KeysCompare(norm, t, rows, j, i);
    }
  }

  lemma OutsideIff(norm: Norm, t: Tables, rows: seq<Row>, j: nat)
    requires j < |t.jobs|
    ensures PlanOf(norm, t, rows).jobKeys[j] !in PlanOf(norm, t, rows).rowKeys
       <==> forall k | 0 <= k < |rows| :: !SameKey(norm, t.depts, t.jobs[j], rows[k])
  {
    var p := PlanOf(norm, t, rows);
    forall k: nat | k < |rows| ensures p.jobKeys[j] == p.rowKeys[k] <==> SameKey(norm, t.depts, t.jobs[j], rows[k]) {
      KeysCompare(norm, t, rows, j, k);
    }
  }

  lemma CompletionIff(norm: Norm, t: Tables, rows: seq<Row>, j: nat, i: nat)
    requires j < |t.jobs| && i < |rows|
    ensures CanComplete(PlanOf(norm, t, rows), j, i) <==> CouldComplete(norm, t, rows, j, i)
  {
    KeysCompare(norm, t, rows, j, i);
    OutsideIff(norm, t, rows, j);
  }

  lemma SoleIff(norm: Norm, t: Tables, rows: seq<Row>, j: nat, i: nat)
    requires j < |t.jobs| && i < |rows|
    ensures var p := PlanOf(norm, t, rows);
      SoleUnmatched(p, i) && Legacy(p.rowKeys[i]) == Legacy(p.jobKeys[j]) <==> OnlyNewRow(norm, t, rows, j, i)
  {
    var p := PlanOf(norm, t, rows);
    KeysCompare(norm, t, rows, j, i);
    NewIffUnmatched(norm, t, rows, i);
    forall k: nat | k < |rows|
      ensures Matched(p, k) <==> !IsNew(norm, t, rows[k])
      ensures Legacy(p.jobKeys[j]) == Legacy(p.rowKeys[k]) <==> SameLegacyKey(norm, t.depts, t.jobs[j], rows[k])
    {
      KeysCompare(norm, t, rows, j, k);
      NewIffUnmatched(norm, t, rows, k);
    }
  }

  /** A legacy job is retired as superseded exactly if some row could complete it but no row of its legacy key is the
      only new one. */
  lemma SupersededIff(norm: Norm, t: Tables, rows: seq<Row>, j: nat)
    requires j < |t.jobs|
    ensures Superseded(PlanOf(norm, t, rows), j) <==>
      && (exists i: nat | i < |rows| :: CouldComplete(norm, t, rows, j, i))
      && !(exists i: nat | i < |rows| :: OnlyNewRow(norm, t, rows, j, i))
  {
    forall i: nat | i < |rows|
      ensures CanComplete(PlanOf(norm, t, rows), j, i) <==> CouldComplete(norm, t, rows, j, i)
      ensures var p := PlanOf(norm, t, rows);
        SoleUnmatched(p, i) && Legacy(p.rowKeys[i]) == Legacy(p.jobKeys[j]) <==> OnlyNewRow(norm, t, rows, j, i)
    {
      CompletionIff(norm, t, rows, j, i);
      SoleIff(norm, t, rows, j, i);
    }
  }

  /** Where a row goes: to the job with its key; else to the legacy job that it alone could complete; else to a new
      job. */
  lemma TargetIff(norm: Norm, t: Tables, rows: seq<Row>, i: nat, target: nat)
    requires i < |rows| && Sound(PlanOf(norm, t, rows)) && TargetOk(PlanOf(norm, t, rows), i, target)
    ensures forall j | 0 <= j < |t.jobs| && SameKey(norm, t.depts, t.jobs[j], rows[i]) :: target == j
    ensures IsNew(norm, t, rows[i]) && target < |t.jobs| ==>
      CouldComplete(norm, t, rows, target, i) && OnlyNewRow(norm, t, rows, target, i)
    ensures forall j | 0 <= j < |t.jobs| && CouldComplete(norm, t, rows, j, i) && OnlyNewRow(norm, t, rows, j, i) :: target == j
  {
    var p := PlanOf(norm, t, rows);
    PlanIsUnique(norm, t, rows, p);
    PlansAreCoherent(norm, t, rows, p);
    NewIffUnmatched(norm, t, rows, i);
    forall j: nat | j < |t.jobs|
      ensures SameKey(norm, t.depts, t.jobs[j], rows[i]) <==> p.jobKeys[j] == p.rowKeys[i]
      ensures CouldComplete(norm, t, rows, j, i) && OnlyNewRow(norm, t, rows, j, i) <==> Reuses(p, j, i)
    {
      KeysCompare(norm, t, rows, j, i);
      CompletionIff(norm, t, rows, j, i);
      SoleIff(norm, t, rows, j, i);
    }
    forall j: nat | j < |t.jobs| && CouldComplete(norm, t, rows, j, i) && OnlyNewRow(norm, t, rows, j, i) ensures target == j {
      assert Reuses(p, j, i) && Reuses(p, target, i);
      CompletableIsUnique(norm, p, j, target, i, i);
    }
  }

  // ----- Why the tree has to fit -----

  lemma LookupMisses(depts: seq<Department>, name: string, parent: Option<nat>)
    requires forall i | 0 <= i < |depts| :: depts[i].parent != parent
    ensures Lookup(depts, name, parent).None?
  {
  }

  lemma TreeOfUnfitFile(name: string)
    requires name != ""
    ensures var depts := [Department(name, None, 2), Department(name, Some(0), 2)];
      && GetDepartment([], "", name) == (depts[..1], 0) && GetDepartment(depts[..1], name, name) == (depts, 1)
      && Find(depts, Path("", name)) == Some(0) && Find(depts, Path(name, name)) == Some(1)
  {
    var a, b := Department(name, None, 2), Department(name, Some(0), 2);
    var first, depts := [a], [a, b];
    assert depts[..1] == first && [] + first == first && first + [b] == depts;
    LookupMisses([], name, None);
    LookupAppended([], a);
    LookupMisses(first, name, Some(0));
    LookupAppended(first, b);
    LookupSurvivesGrowth(first, [b], name, None);
  }

  /** The two jobs of such a file: both are named by the second level alone. */
  lemma UnfitNames(name: string, d: nat)
    requires d < 2
    ensures var depts := [Department(name, None, 2), Department(name, Some(0), 2)];
      PrimaryName(depts, Some(d)) == "" && SecondaryName(depts, Some(d)) == name
  {
  }

  /** A file whose rows have different keys, but whose row without a primary department names the primary of the
      other row: the second row ends below a department of the second level, so its job loses the primary
      department, and the two jobs share a key.  The next import of the same file cannot go on. */
  lemma UnfitFileRepeatsKeys(norm: Norm, row: Row, name: string)
    requires name != "" && norm(name) != norm("")
    ensures var rows := [row.(path := Path("", name)), row.(path := Path(name, name))];
      var (depts, x) := GetDepartment([], "", name);
      var (depts', y) := GetDepartment(depts, name, name);
      var jobs := [JobOf(depts', rows[0]), JobOf(depts', rows[1])];
      && RowKey(norm, rows[0]) != RowKey(norm, rows[1])
      && jobs[0].department == Some(x) && jobs[1].department == Some(y) && PrimaryName(depts', Some(y)) == ""
      && !Sound(PlanOf(norm, Tables(depts', jobs), rows))
  {
    TreeOfUnfitFile(name);
    UnfitNames(name, 0);
    UnfitNames(name, 1);
    var rows := [row.(path := Path("", name)), row.(path := Path(name, name))];
    var depts' := [Department(name, None, 2), Department(name, Some(0), 2)];
    var jobs := [JobOf(depts', rows[0]), JobOf(depts', rows[1])];
    assert JobKey(norm, depts', jobs[0]) == JobKey(norm, depts', jobs[1]);
    var keys := Keys(norm, depts', jobs);
    assert keys[0] == keys[1];
  }
}
