/** The department tree as the job import reads and extends it.  A department is identified by its
    position in the list of all departments. */
module Departments {
  import opened Wrappers

  datatype Department = Department(name: string, parent: Option<nat>, level: nat)

  predicate WellFormed(depts: seq<Department>) {
    forall i | 0 <= i < |depts| :: depts[i].parent.Some? ==> depts[i].parent.value < |depts|
  }

  function LevelOf(depts: seq<Department>, d: Option<nat>): nat {
    if d.Some? && d.value < |depts| then depts[d.value].level else 0
  }

  function NameOf(depts: seq<Department>, d: Option<nat>): string {
    if d.Some? && d.value < |depts| then depts[d.value].name else ""
  }

  function ParentOf(depts: seq<Department>, d: Option<nat>): Option<nat> {
    if d.Some? && d.value < |depts| then depts[d.value].parent else None
  }

  /** resolve_department_hierarchy: the department on the way up that really has the wanted level. */
  function SecondaryOf(depts: seq<Department>, d: Option<nat>): Option<nat> {
    if LevelOf(depts, d) == 2 then d
    else if LevelOf(depts, d) == 3 && LevelOf(depts, ParentOf(depts, d)) == 2 then ParentOf(depts, d)
    else None
  }

  function PrimaryOf(depts: seq<Department>, d: Option<nat>): Option<nat> {
    if LevelOf(depts, d) == 1 then d
    else
      var up := ParentOf(depts, SecondaryOf(depts, d));
      if LevelOf(depts, up) == 1 then up else None
  }

  predicate HasLevel(depts: seq<Department>, d: nat, level: nat) {
    d < |depts| && depts[d].level == level
  }

  /** The secondary of a department is itself, or the parent of a third-level one, if that has level two. */
  lemma SecondaryIff(depts: seq<Department>, d: nat, s: nat)
    ensures SecondaryOf(depts, Some(d)) == Some(s) <==>
      && HasLevel(depts, s, 2)
      && (d == s || (HasLevel(depts, d, 3) && depts[d].parent == Some(s)))
  {
  }

  /** The primary is a department of level one: the department itself, or the parent of its secondary. */
  lemma PrimaryIff(depts: seq<Department>, d: nat, p: nat)
    ensures PrimaryOf(depts, Some(d)) == Some(p) <==>
      && HasLevel(depts, p, 1)
      && (d == p || exists s: nat :: SecondaryOf(depts, Some(d)) == Some(s) && depts[s].parent == Some(p))
  {
    var s := SecondaryOf(depts, Some(d));
    if s.Some? {
      SecondaryIff(depts, d, s.value);
    }
  }

  function PrimaryName(depts: seq<Department>, d: Option<nat>): string {
    NameOf(depts, PrimaryOf(depts, d))
  }

  function SecondaryName(depts: seq<Department>, d: Option<nat>): string {
    NameOf(depts, SecondaryOf(depts, d))
  }

  /** The first department with this name and parent. */
  function Lookup(depts: seq<Department>, name: string, parent: Option<nat>): (d: Option<nat>)
    ensures d.Some? ==> d.value < |depts| && depts[d.value].name == name && depts[d.value].parent == parent
    ensures d.None? ==> forall i | 0 <= i < |depts| :: !(depts[i].name == name && depts[i].parent == parent)
  {
    if depts == [] then None
    else
      var n := |depts| - 1;
      var earlier := Lookup(depts[..n], name, parent);
      if earlier.Some? then earlier
      else if depts[n].name == name && depts[n].parent == parent then Some(n)
      else None
  }

  function GetOrCreate(depts: seq<Department>, name: string, parent: Option<nat>, level: nat): (seq<Department>, nat) {
    match Lookup(depts, name, parent)
    case Some(d) => (depts, d)
    case None => (depts + [Department(name, parent, level)], |depts|)
  }

  /** The department named by a row: its primary, if it has one, and below it its secondary. */
  function GetDepartment(depts: seq<Department>, primary: string, secondary: string): (seq<Department>, nat) {
    if primary == "" then GetOrCreate(depts, secondary, None, 2)
    else
      var (depts1, l1) := GetOrCreate(depts, primary, None, 1);
      GetOrCreate(depts1, secondary, Some(l1), 2)
  }

  /** A row path as written: primary (possibly missing) and secondary. */
  datatype Path = Path(primary: string, secondary: string)

  /** Department i is one that a lookup for the secondary of a path meets. */
  predicate MeetsSecondary(depts: seq<Department>, p: Path, i: nat) {
    && i < |depts| && depts[i].name == p.secondary
    && (if p.primary == "" then depts[i].parent.None?
        else depts[i].parent.Some? && NameOf(depts, depts[i].parent) == p.primary && ParentOf(depts, depts[i].parent).None?)
  }

  /** Lookups for the given paths meet departments of the right level only, and no path without a
      primary uses the name of another path's primary. */
  ghost predicate Fits(depts: seq<Department>, paths: set<Path>) {
    && WellFormed(depts)
    && (forall p | p in paths :: p.secondary != "")
    && (forall p, i | p in paths && 0 <= i < |depts| && p.primary != "" && depts[i].name == p.primary && depts[i].parent.None? ::
          depts[i].level == 1)
    && (forall p, i: nat | p in paths && MeetsSecondary(depts, p, i) :: depts[i].level == 2)
    && (forall p, q | p in paths && q in paths && p.primary == "" :: p.secondary != q.primary)
  }

  lemma NamesSurviveGrowth(depts: seq<Department>, more: seq<Department>, d: Option<nat>)
    requires WellFormed(depts) && (d.Some? ==> d.value < |depts|)
    ensures PrimaryName(depts + more, d) == PrimaryName(depts, d)
    ensures SecondaryName(depts + more, d) == SecondaryName(depts, d)
  {
  }

  lemma {:induction false} LookupSurvivesGrowth(depts: seq<Department>, more: seq<Department>, name: string, parent: Option<nat>)
    requires Lookup(depts, name, parent).Some?
    ensures Lookup(depts + more, name, parent) == Lookup(depts, name, parent)
  {
    if more != [] {
      var n := |more| - 1;
      LookupSurvivesGrowth(depts, more[..n], name, parent);
      assert (depts + more)[..|depts| + n] == depts + more[..n];
    } else {
      assert depts + more == depts;
    }
  }

  /** The department of a path in a tree that has it. */
  function Find(depts: seq<Department>, p: Path): Option<nat> {
    if p.primary == "" then Lookup(depts, p.secondary, None)
    else
      match Lookup(depts, p.primary, None)
      case None => None
      case Some(l1) => Lookup(depts, p.secondary, Some(l1))
  }

  lemma FindSurvivesGrowth(depts: seq<Department>, more: seq<Department>, p: Path)
    requires Find(depts, p).Some?
    ensures Find(depts + more, p) == Find(depts, p)
  {
    if p.primary == "" {
      LookupSurvivesGrowth(depts, more, p.secondary, None);
    } else {
      LookupSurvivesGrowth(depts, more, p.primary, None);
      LookupSurvivesGrowth(depts, more, p.secondary, Lookup(depts, p.primary, None));
    }
  }

  lemma {:induction false} LookupAppended(depts: seq<Department>, d: Department)
    requires Lookup(depts, d.name, d.parent).None?
    ensures Lookup(depts + [d], d.name, d.parent) == Some(|depts|)
  {
    assert (depts + [d])[..|depts|] == depts;
  }

  lemma GetOrCreateFinds(depts: seq<Department>, name: string, parent: Option<nat>, level: nat)
    ensures var (depts', d) := GetOrCreate(depts, name, parent, level);
      && depts <= depts' && Lookup(depts', name, parent) == Some(d)
      && (Lookup(depts, name, parent).Some? ==> depts' == depts)
  {
    if Lookup(depts, name, parent).None? {
      LookupAppended(depts, Department(name, parent, level));
    }
  }

  /** Asking for a path creates what is missing and nothing else: afterwards the path is found, and a
      path that was there is found unchanged. */
  lemma GetDepartmentFinds(depts: seq<Department>, p: Path)
    ensures var (depts', d) := GetDepartment(depts, p.primary, p.secondary);
      && depts <= depts' && Find(depts', p) == Some(d)
      && (Find(depts, p).Some? ==> depts' == depts)
  {
    if p.primary == "" {
      GetOrCreateFinds(depts, p.secondary, None, 2);
    } else {
      GetOrCreateFinds(depts, p.primary, None, 1);
      var (depts1, l1) := GetOrCreate(depts, p.primary, None, 1);
      GetOrCreateFinds(depts1, p.secondary, Some(l1), 2);
      var (depts2, d) := GetOrCreate(depts1, p.secondary, Some(l1), 2);
      LookupSurvivesGrowth(depts1, depts2[|depts1|..], p.primary, None);
      assert depts2 == depts1 + depts2[|depts1|..];
    }
  }

  lemma GetOrCreateFits(depts: seq<Department>, paths: set<Path>, p: Path)
    requires Fits(depts, paths) && p in paths
    ensures p.primary == "" ==> Fits(GetOrCreate(depts, p.secondary, None, 2).0, paths)
    ensures p.primary != "" ==> Fits(GetOrCreate(depts, p.primary, None, 1).0, paths)
  {
  }

  lemma GetSecondaryFits(depts: seq<Department>, paths: set<Path>, p: Path, l1: nat)
    requires Fits(depts, paths) && p in paths && p.primary != ""
    requires l1 < |depts| && depts[l1].name == p.primary && depts[l1].parent.None?
    ensures Fits(GetOrCreate(depts, p.secondary, Some(l1), 2).0, paths)
  {
  }

  /** In a tree that fits, a path leads to a department with exactly its names. */
  lemma FoundNames(depts: seq<Department>, paths: set<Path>, p: Path)
    requires Fits(depts, paths) && p in paths && Find(depts, p).Some?
    ensures PrimaryName(depts, Find(depts, p)) == p.primary && SecondaryName(depts, Find(depts, p)) == p.secondary
  {
  }

  lemma GetDepartmentFits(depts: seq<Department>, paths: set<Path>, p: Path)
    requires Fits(depts, paths) && p in paths
    ensures Fits(GetDepartment(depts, p.primary, p.secondary).0, paths)
  {
    GetOrCreateFits(depts, paths, p);
    if p.primary != "" {
      var (depts1, l1) := GetOrCreate(depts, p.primary, None, 1);
      GetSecondaryFits(depts1, paths, p, l1);
    }
  }

  /** The department found for a path carries exactly the names of the path, and the tree still fits. */
  lemma GetDepartmentNames(depts: seq<Department>, paths: set<Path>, p: Path)
    requires Fits(depts, paths) && p in paths
    ensures var (depts', d) := GetDepartment(depts, p.primary, p.secondary);
      && Fits(depts', paths) && d < |depts'|
      && PrimaryName(depts', Some(d)) == p.primary && SecondaryName(depts', Some(d)) == p.secondary
  {
    var depts' := GetDepartment(depts, p.primary, p.secondary).0;
    GetDepartmentFits(depts, paths, p);
    GetDepartmentFinds(depts, p);
    FoundNames(depts', paths, p);
  }
}
