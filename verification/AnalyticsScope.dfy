/** The resumes, candidates and attempts that the dashboard and its drill-down look at. */
module AnalyticsScope {
  import opened Wrappers
  import opened Departments
  import CandidateStatus

  datatype Tag = Tag(id: nat, name: string)

  /** A resume; titles are the names of its position, the preferred one first. */
  datatype Resume = Resume(
    id: nat, candidate: nat, imported: int, entity: string, rank: Option<int>, day: Option<int>, job: Option<nat>, titles: seq<string>)

  datatype Attempt = Attempt(
    id: nat, no: nat, resume: nat, candidate: nat, status: CandidateStatus.AttemptStatus, source: string,
    department: Option<nat>, reasonCode: string)

  datatype Candidate = Candidate(id: nat, tags: seq<Tag>, highest: Option<Tag>, first: Option<Tag>, education: string)

  /** The tables; currents maps a candidate to the current resume of its workflow. */
  datatype Db = Db(
    depts: seq<Department>, resumes: seq<Resume>, attempts: seq<Attempt>, candidates: seq<Candidate>, currents: map<nat, nat>)

  /** The filters of the dashboard; an empty one does not restrict. */
  datatype Filters = Filters(
    start: int, end: int, entity: string, job: Option<nat>, primary: Option<nat>, department: Option<nat>, tag: Option<nat>,
    education: string, source: string)

  // ----- The first resume of a candidate -----

  /** Ascending, with missing values last. */
  predicate Less(a: Option<int>, b: Option<int>) {
    a.Some? && (b.None? || a.value < b.value)
  }

  predicate Precedes(a: Resume, b: Resume) {
    Less(a.rank, b.rank) || (a.rank == b.rank && (Less(a.day, b.day) || (a.day == b.day && a.id < b.id)))
  }

  /** The first resume of a candidate among some rows. */
  function FirstOf(rows: seq<Resume>, candidate: nat): (r: Option<Resume>)
    ensures r.Some? ==> r.value in rows && r.value.candidate == candidate
    ensures r.Some? ==> forall x | x in rows && x.candidate == candidate :: !Precedes(x, r.value)
    ensures r.None? ==> forall x | x in rows :: x.candidate != candidate
  {
    if rows == [] then None
    else
      var n := |rows| - 1;
      var before := FirstOf(rows[..n], candidate);
      assert forall x | x in rows :: x in rows[..n] || x == rows[n];
      if rows[n].candidate == candidate && (before.None? || Precedes(rows[n], before.value)) then Some(rows[n]) else before
  }

  /** A resume id names one resume. */
  ghost predicate UniqueIds(rows: seq<Resume>) {
    forall x, y | x in rows && y in rows && x.id == y.id :: x == y
  }

  /** The first resume depends only on which resumes of the candidate there are. */
  lemma FirstIsDetermined(rows: seq<Resume>, rows': seq<Resume>, candidate: nat)
    requires UniqueIds(rows) && UniqueIds(rows')
    requires forall x: Resume | x.candidate == candidate :: x in rows <==> x in rows'
    ensures FirstOf(rows, candidate) == FirstOf(rows', candidate)
  {
    var a, b := FirstOf(rows, candidate), FirstOf(rows', candidate);
    if a.Some? && b.Some? {
      assert !Precedes(a.value, b.value) && !Precedes(b.value, a.value);
    }
  }

  // ----- The scope -----

  predicate InCohort(f: Filters, r: Resume) {
    f.start <= r.imported < f.end && (f.entity != "" ==> r.entity == f.entity)
  }

  /** The resumes imported in the range, for the wanted entity. */
  function Cohort(f: Filters, rows: seq<Resume>): (r: seq<Resume>)
    ensures forall x :: x in r <==> x in rows && InCohort(f, x)
  {
    if rows == [] then []
    else
      var n := |rows| - 1;
      assert forall x | x in rows :: x in rows[..n] || x == rows[n];
      Cohort(f, rows[..n]) + if InCohort(f, rows[n]) then [rows[n]] else []
  }

  /** The effective resume of a candidate: the current one of its workflow, or its first one in the cohort. */
  function Effective(db: Db, f: Filters, candidate: nat): Option<nat> {
    if candidate in db.currents then Some(db.currents[candidate])
    else
      match FirstOf(Cohort(f, db.resumes), candidate)
      case Some(r) => Some(r.id)
      case None => None
  }

  function ResumeById(rows: seq<Resume>, id: Option<nat>): (r: Option<Resume>)
    ensures r.Some? ==> r.value in rows && id == Some(r.value.id)
    ensures r.None? && id.Some? ==> forall x | x in rows :: x.id != id.value
  {
    if rows == [] || id.None? then None
    else
      var n := |rows| - 1;
      assert forall x | x in rows :: x in rows[..n] || x == rows[n];
      if rows[n].id == id.value then Some(rows[n]) else ResumeById(rows[..n], id)
  }

  predicate Later(a: Attempt, b: Attempt) {
    a.no > b.no || (a.no == b.no && a.id > b.id)
  }

  /** The latest attempt for a resume that is not cancelled. */
  function LatestAttempt(attempts: seq<Attempt>, resume: Option<nat>): (a: Option<Attempt>)
    ensures a.Some? ==> a.value in attempts && resume == Some(a.value.resume) && !a.value.status.Cancelled?
    ensures a.Some? ==> forall x | x in attempts && resume == Some(x.resume) && !x.status.Cancelled? :: !Later(x, a.value)
    ensures a.None? && resume.Some? ==> forall x | x in attempts && x.resume == resume.value :: x.status.Cancelled?
  {
    if attempts == [] || resume.None? then None
    else
      var n := |attempts| - 1;
      var before := LatestAttempt(attempts[..n], resume);
      var x := attempts[n];
      assert forall y | y in attempts :: y in attempts[..n] || y == x;
      if x.resume == resume.value && !x.status.Cancelled? && (before.None? || Later(x, before.value)) then Some(x) else before
  }

  function CandidateById(candidates: seq<Candidate>, id: nat): (c: Option<Candidate>)
    ensures c.Some? ==> c.value in candidates && c.value.id == id
    ensures c.None? ==> forall x | x in candidates :: x.id != id
  {
    if candidates == [] then None
    else
      var n := |candidates| - 1;
      assert forall x | x in candidates :: x in candidates[..n] || x == candidates[n];
      if candidates[n].id == id then Some(candidates[n]) else CandidateById(candidates[..n], id)
  }

  predicate HasTagId(tags: seq<Tag>, id: nat) {
    exists i | 0 <= i < |tags| :: tags[i].id == id
  }

  /** The tag filter: the tags of a candidate, or without any the highest or else the first degree. */
  predicate TagMatches(c: Candidate, id: nat) {
    || HasTagId(c.tags, id)
    || (c.tags == [] && c.highest.Some? && c.highest.value.id == id)
    || (c.tags == [] && c.highest.None? && c.first.Some? && c.first.value.id == id)
  }

  /** The department above by level, taken as it is. */
  function PrimaryId(depts: seq<Department>, d: Option<nat>): Option<nat> {
    var level := LevelOf(depts, d);
    if level == 1 then d
    else if level == 2 then ParentOf(depts, d)
    else if level == 3 then ParentOf(depts, ParentOf(depts, d))
    else None
  }

  function SecondaryId(depts: seq<Department>, d: Option<nat>): Option<nat> {
    var level := LevelOf(depts, d);
    if level == 2 then d
    else if level == 3 then ParentOf(depts, d)
    else None
  }

  function CurrentAttempt(db: Db, f: Filters, candidate: nat): Option<Attempt> {
    LatestAttempt(db.attempts, Effective(db, f, candidate))
  }

  predicate ProfileMatches(db: Db, f: Filters, candidate: nat) {
    var c := CandidateById(db.candidates, candidate);
    && (f.tag.Some? ==> c.Some? && TagMatches(c.value, f.tag.value))
    && (f.education != "" ==> c.Some? && c.value.education == f.education)
  }

  predicate WorkMatches(db: Db, f: Filters, candidate: nat) {
    var r, a := ResumeById(db.resumes, Effective(db, f, candidate)), CurrentAttempt(db, f, candidate);
    && (f.job.Some? ==> r.Some? && r.value.job == f.job)
    && (f.primary.Some? ==> a.Some? && PrimaryId(db.depts, a.value.department) == f.primary)
    && (f.department.Some? ==> a.Some? && SecondaryId(db.depts, a.value.department) == f.department)
    && (f.source != "" ==> a.Some? && a.value.source == f.source)
  }

  /** The filters beyond the cohort look at the candidate only. */
  function Matching(db: Db, f: Filters): nat -> bool {
    (candidate: nat) => ProfileMatches(db, f, candidate) && WorkMatches(db, f, candidate)
  }

  function OfCandidates(rows: seq<Resume>, ok: nat -> bool): (r: seq<Resume>)
    ensures forall x :: x in r <==> x in rows && ok(x.candidate)
  {
    if rows == [] then []
    else
      var n := |rows| - 1;
      assert forall x | x in rows :: x in rows[..n] || x == rows[n];
      OfCandidates(rows[..n], ok) + if ok(rows[n].candidate) then [rows[n]] else []
  }

  /** The resumes in scope. */
  function Scoped(db: Db, f: Filters): seq<Resume> {
    OfCandidates(Cohort(f, db.resumes), Matching(db, f))
  }

  function CandidatesOf(rows: seq<Resume>): set<nat> {
    set r | r in rows :: r.candidate
  }

  // ----- What the scope means -----

  /** Before in the order of rank, day and id, where a missing rank or day comes last. */
  ghost predicate IsBefore(a: Resume, b: Resume) {
    || (a.rank.Some? && (b.rank.None? || a.rank.value < b.rank.value))
    || (a.rank == b.rank && a.day.Some? && (b.day.None? || a.day.value < b.day.value))
    || (a.rank == b.rank && a.day == b.day && a.id < b.id)
  }

  /** The resume lies in the range of times and has the wanted entity. */
  ghost predicate IsImported(db: Db, f: Filters, r: Resume) {
    r in db.resumes && f.start <= r.imported && r.imported < f.end && (f.entity == "" || r.entity == f.entity)
  }

  /** Without a current resume, the first imported one of the candidate is effective. */
  lemma EffectiveIs(db: Db, f: Filters, r: Resume)
    requires IsImported(db, f, r)
    requires forall x | IsImported(db, f, x) && x.candidate == r.candidate && x != r :: IsBefore(r, x)
    ensures Effective(db, f, r.candidate) == Some(if r.candidate in db.currents then db.currents[r.candidate] else r.id)
  {
    assert r in Cohort(f, db.resumes);
    var first := FirstOf(Cohort(f, db.resumes), r.candidate).value;
    assert !Precedes(r, first);
    assert IsImported(db, f, first);
  }

  lemma NothingEffective(db: Db, f: Filters, candidate: nat)
    ensures Effective(db, f, candidate).None? <==>
      candidate !in db.currents && forall r | IsImported(db, f, r) :: r.candidate != candidate
  {
    if r :| IsImported(db, f, r) && r.candidate == candidate {
      assert r in Cohort(f, db.resumes);
    }
    var first := FirstOf(Cohort(f, db.resumes), candidate);
    if first.Some? {
      assert IsImported(db, f, first.value);
    }
  }

  /** The current attempt: for the effective resume, not cancelled, and last by number and id. */
  lemma CurrentAttemptIs(db: Db, f: Filters, candidate: nat, a: Attempt)
    requires a in db.attempts && Effective(db, f, candidate) == Some(a.resume) && a.status != CandidateStatus.Cancelled
    requires forall x | x in db.attempts && x.resume == a.resume && x.status != CandidateStatus.Cancelled && x != a ::
               a.no > x.no || (a.no == x.no && a.id > x.id)
    ensures CurrentAttempt(db, f, candidate) == Some(a)
  {
    assert !Later(a, LatestAttempt(db.attempts, Some(a.resume)).value);
  }

  /** The ancestors of a department by level, whatever their own level is. */
  lemma AncestorsIff(depts: seq<Department>, d: nat, up: nat)
    ensures PrimaryId(depts, Some(d)) == Some(up) <==>
      || (HasLevel(depts, d, 1) && d == up)
      || (HasLevel(depts, d, 2) && depts[d].parent == Some(up))
      || (HasLevel(depts, d, 3) && exists m: nat :: m < |depts| && depts[d].parent == Some(m) && depts[m].parent == Some(up))
    ensures SecondaryId(depts, Some(d)) == Some(up) <==>
      (HasLevel(depts, d, 2) && d == up) || (HasLevel(depts, d, 3) && depts[d].parent == Some(up))
  {
    var parent := ParentOf(depts, Some(d));
    if parent.Some? && parent.value < |depts| {
      assert depts[d].parent == Some(parent.value);
    }
  }

  /** The candidate satisfies the filters on tag and education; a filter that is not set does not restrict. */
  ghost predicate HasProfile(f: Filters, c: Option<Candidate>) {
    && (f.education == "" || (c.Some? && c.value.education == f.education))
    && (f.tag == None || (c.Some? && ShowsTag(c.value, f.tag.value)))
  }

  ghost predicate ShowsTag(c: Candidate, id: nat) {
    if c.tags != [] then exists tag :: tag in c.tags && tag.id == id
    else if c.highest.Some? then c.highest.value.id == id
    else c.first.Some? && c.first.value.id == id
  }

  lemma TagMatchesIff(c: Candidate, id: nat)
    ensures TagMatches(c, id) <==> ShowsTag(c, id)
  {
    if tag :| tag in c.tags && tag.id == id {
      var i :| 0 <= i < |c.tags| && c.tags[i] == tag;
      assert HasTagId(c.tags, id);
    }
  }

  /** The effective resume and its attempt satisfy the filters on job, departments and source. */
  ghost predicate HasWork(f: Filters, r: Option<Resume>, a: Option<Attempt>, primary: Option<nat>, secondary: Option<nat>) {
    && (f.job == None || (r.Some? && r.value.job == f.job))
    && (f.primary == None || primary == f.primary)
    && (f.department == None || secondary == f.department)
    && (f.source == "" || (a.Some? && a.value.source == f.source))
  }

  lemma ProfileIff(db: Db, f: Filters, candidate: nat)
    ensures ProfileMatches(db, f, candidate) <==> HasProfile(f, CandidateById(db.candidates, candidate))
  {
    var c := CandidateById(db.candidates, candidate);
    if f.tag.Some? && c.Some? {
      TagMatchesIff(c.value, f.tag.value);
    }
  }

  function DepartmentOf(a: Option<Attempt>): Option<nat> {
    if a.Some? then a.value.department else None
  }

  lemma WorkIff(db: Db, f: Filters, candidate: nat)
    ensures var r, a := ResumeById(db.resumes, Effective(db, f, candidate)), CurrentAttempt(db, f, candidate);
      WorkMatches(db, f, candidate) <==>
        HasWork(f, r, a, PrimaryId(db.depts, DepartmentOf(a)), SecondaryId(db.depts, DepartmentOf(a)))
  {
  }

  /** A resume is in scope if it was imported in the range for the wanted entity, and its candidate satisfies every
      filter that is set. */
  lemma ScopedIff(db: Db, f: Filters, r: Resume)
    ensures var effective, a := ResumeById(db.resumes, Effective(db, f, r.candidate)), CurrentAttempt(db, f, r.candidate);
      r in Scoped(db, f) <==>
        && IsImported(db, f, r)
        && HasProfile(f, CandidateById(db.candidates, r.candidate))
        && HasWork(f, effective, a, PrimaryId(db.depts, DepartmentOf(a)), SecondaryId(db.depts, DepartmentOf(a)))
  {
    ProfileIff(db, f, r.candidate);
    WorkIff(db, f, r.candidate);
    InScopeIff(db, f, r);
  }

  lemma InScopeIff(db: Db, f: Filters, r: Resume)
    ensures r in Scoped(db, f) <==> IsImported(db, f, r) && ProfileMatches(db, f, r.candidate) && WorkMatches(db, f, r.candidate)
  {
    assert r in Cohort(f, db.resumes) <==> IsImported(db, f, r);
    assert r in Scoped(db, f) <==> r in Cohort(f, db.resumes) && Matching(db, f)(r.candidate);
  }

  // ----- Effective resumes, computed again -----

  /** Sorted by candidate and, for one candidate, first resume first. */
  ghost predicate Sorted(rows: seq<Resume>) {
    forall i, j | 0 <= i < j < |rows| && rows[i].candidate == rows[j].candidate :: Precedes(rows[i], rows[j])
  }

  function IdOf(r: Option<Resume>): Option<nat> {
    match r
    case Some(x) => Some(x.id)
    case None => None
  }

  /** The fallback of every candidate: its first resume in a sorted list. */
  method Fallbacks(sorted: seq<Resume>) returns (fallback: map<nat, nat>)
    requires Sorted(sorted)
    ensures forall c: nat :: (if c in fallback then Some(fallback[c]) else None) == IdOf(FirstOf(sorted, c))
  {
    fallback := map[];
    for i := 0 to |sorted|
      invariant forall c: nat :: HoldsFirst(fallback, sorted[..i], c)
    {
      TakeNext(sorted, i);
      ghost var before := fallback;
      assert HoldsFirst(fallback, sorted[..i], sorted[i].candidate);
      if sorted[i].candidate !in fallback {
        fallback := fallback[sorted[i].candidate := sorted[i].id];
      }
      ghost var longer := sorted[..i + 1];
      forall c: nat ensures HoldsFirst(fallback, longer, c) {
        assert HoldsFirst(before, sorted[..i], c);
        FirstOfSorted(sorted, i, c);
      }
    }
    assert sorted[..|sorted|] == sorted;
    forall c: nat ensures (if c in fallback then Some(fallback[c]) else None) == IdOf(FirstOf(sorted, c)) {
      assert HoldsFirst(fallback, sorted, c);
    }
  }

  ghost predicate HoldsFirst(fallback: map<nat, nat>, rows: seq<Resume>, c: nat) {
    (if c in fallback then Some(fallback[c]) else None) == IdOf(FirstOf(rows, c))
  }

  lemma FirstOfSorted(sorted: seq<Resume>, i: nat, c: nat)
    requires Sorted(sorted) && i < |sorted|
    ensures FirstOf(sorted[..i + 1], c) ==
      if FirstOf(sorted[..i], c).None? && sorted[i].candidate == c then Some(sorted[i]) else FirstOf(sorted[..i], c)
  {
    var longer := sorted[..i + 1];
    assert longer[..i] == sorted[..i];
    var before := FirstOf(sorted[..i], c);
    if before.Some? && sorted[i].candidate == c {
      var k :| 0 <= k < i && sorted[..i][k] == before.value;
      assert Precedes(sorted[k], sorted[i]);
    }
  }

  /** Filtering by candidate keeps all resumes of a candidate or none, so the first one stays the same. */
  lemma FirstInScopeIsFirstInCohort(db: Db, f: Filters, sorted: seq<Resume>, candidate: nat)
    requires UniqueIds(db.resumes) && forall x :: x in sorted <==> x in Scoped(db, f)
    requires candidate in CandidatesOf(Scoped(db, f))
    ensures FirstOf(sorted, candidate) == FirstOf(Cohort(f, db.resumes), candidate)
  {
    var r :| r in Scoped(db, f) && r.candidate == candidate;
    assert Matching(db, f)(candidate);
    FirstIsDetermined(sorted, Cohort(f, db.resumes), candidate);
  }

  /** The current resume of a workflow, or the fallback. */
  function Chosen(currents: map<nat, nat>, fallback: map<nat, nat>, candidate: nat): Option<nat> {
    if candidate in currents then Some(currents[candidate])
    else if candidate in fallback then Some(fallback[candidate])
    else None
  }

  /** The current resume of a workflow, or the first of the sorted resumes. */
  function OwnOrFirst(currents: map<nat, nat>, sorted: seq<Resume>, candidate: nat): Option<nat> {
    if candidate in currents then Some(currents[candidate]) else IdOf(FirstOf(sorted, candidate))
  }

  /** The effective resume of each candidate, found a second way: from the resumes in scope. */
  method EffectiveIds(currents: map<nat, nat>, candidates: seq<nat>, sorted: seq<Resume>) returns (ids: seq<Option<nat>>)
    requires Sorted(sorted)
    ensures |ids| == |candidates|
    ensures forall i | 0 <= i < |ids| :: ids[i] == OwnOrFirst(currents, sorted, candidates[i])
  {
    var fallback: map<nat, nat> := Fallbacks(sorted);
    ids := [];
    for i := 0 to |candidates|
      invariant |ids| == i && forall k | 0 <= k < i :: ids[k] == Chosen(currents, fallback, candidates[k])
    {
      ids := ids + [Chosen(currents, fallback, candidates[i])];
    }
  }

  /** For a candidate in scope, both ways find the same effective resume. */
  lemma EffectiveResumesAgree(db: Db, f: Filters, sorted: seq<Resume>, candidate: nat)
    requires UniqueIds(db.resumes) && forall x :: x in sorted <==> x in Scoped(db, f)
    requires candidate in CandidatesOf(Scoped(db, f))
    ensures Effective(db, f, candidate) == OwnOrFirst(db.currents, sorted, candidate)
  {
    FirstInScopeIsFirstInCohort(db, f, sorted, candidate);
  }

  // ----- Ownership -----

  /** The current resume of a candidate is one of its own. */
  ghost predicate OwnsCurrent(db: Db, candidate: nat) {
    candidate in db.currents && exists r :: r in db.resumes && r.id == db.currents[candidate] && r.candidate == candidate
  }

  /** An attempt is recorded for the candidate of its resume. */
  ghost predicate OwnsAttempt(db: Db, a: Attempt) {
    exists r :: r in db.resumes && r.id == a.resume && r.candidate == a.candidate
  }

  /** Current resumes and attempts belong to the candidate they are recorded for. */
  ghost predicate Owned(db: Db) {
    && UniqueIds(db.resumes)
    && (forall c {:trigger OwnsCurrent(db, c)} | c in db.currents :: OwnsCurrent(db, c))
    && (forall a {:trigger OwnsAttempt(db, a)} | a in db.attempts :: OwnsAttempt(db, a))
  }

  /** The effective resume of a candidate is one of its own. */
  lemma EffectiveIsOwn(db: Db, f: Filters, candidate: nat) returns (r: Resume)
    requires Owned(db) && Effective(db, f, candidate).Some?
    ensures r in db.resumes && Effective(db, f, candidate) == Some(r.id) && r.candidate == candidate
  {
    if candidate in db.currents {
      assert OwnsCurrent(db, candidate);
      r :| r in db.resumes && r.id == db.currents[candidate] && r.candidate == candidate;
    } else {
      r := FirstOf(Cohort(f, db.resumes), candidate).value;
    }
  }

  /** The current attempt of a candidate is one of its own. */
  lemma AttemptIsOwn(db: Db, f: Filters, candidate: nat)
    requires Owned(db) && CurrentAttempt(db, f, candidate).Some?
    ensures CurrentAttempt(db, f, candidate).value.candidate == candidate
  {
    var a := CurrentAttempt(db, f, candidate).value;
    var r := EffectiveIsOwn(db, f, candidate);
    assert OwnsAttempt(db, a);
    var owner :| owner in db.resumes && owner.id == a.resume && owner.candidate == a.candidate;
    assert owner == r;
  }
}
