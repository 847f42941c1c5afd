/** The exported archive: which resumes it holds, which it reports missing, and how its members are named. */
module Archive {
  import opened Wrappers
  import opened ArchiveNames

  /** A resume with the path that was stored for its file, possibly empty. */
  datatype Resume = Resume(id: nat, applyId: string, path: string)

  datatype Record = Record(candidate: nat, resumes: seq<Resume>)

  // ----- One record per candidate -----

  function IndexOf(records: seq<Record>, candidate: nat): (i: nat)
    ensures i <= |records| && (i < |records| ==> records[i].candidate == candidate)
    ensures forall k | 0 <= k < i :: records[k].candidate != candidate
  {
    if records == [] then 0
    else
      var n := |records| - 1;
      var i := IndexOf(records[..n], candidate);
      if i < n then i else if records[n].candidate == candidate then n else n + 1
  }

  /** The records after later ones have replaced earlier ones of the same candidate, in place. */
  function Latest(records: seq<Record>): seq<Record> {
    if records == [] then []
    else
      var n := |records| - 1;
      var before := Latest(records[..n]);
      var i := IndexOf(before, records[n].candidate);
      if i < |before| then before[i := records[n]] else before + [records[n]]
  }

  /** Record k is the last one of its candidate. */
  ghost predicate LastOf(records: seq<Record>, k: nat) {
    k < |records| && forall m | k < m < |records| :: records[m].candidate != records[k].candidate
  }

  /** No candidate has two records left. */
  lemma {:induction false} LatestHasNoRepeats(records: seq<Record>, i: nat, j: nat)
    requires i < j < |Latest(records)|
    ensures Latest(records)[i].candidate != Latest(records)[j].candidate
  {
    var n := |records| - 1;
    var before := Latest(records[..n]);
    if j < |before| {
      LatestHasNoRepeats(records[..n], i, j);
    }
  }

  /** The record left of a candidate is its last one. */
  lemma {:induction false} LatestIsLast(records: seq<Record>, i: nat) returns (k: nat)
    requires i < |Latest(records)|
    ensures LastOf(records, k) && records[k] == Latest(records)[i]
  {
    var n := |records| - 1;
    var before := Latest(records[..n]);
    var at := IndexOf(before, records[n].candidate);
    if i == at {
      k := n;
    } else {
      k := LatestIsLast(records[..n], i);
      if before[i].candidate == records[n].candidate {
        LatestHasNoRepeats(records[..n], if i < at then i else at, if i < at then at else i);
      }
    }
  }

  /** Every candidate has a record left. */
  lemma {:induction false} EveryCandidateIsKept(records: seq<Record>, k: nat)
    requires k < |records|
    ensures IndexOf(Latest(records), records[k].candidate) < |Latest(records)|
  {
    var n := |records| - 1;
    var before, after := Latest(records[..n]), Latest(records);
    var candidate := records[k].candidate;
    if k < n {
      EveryCandidateIsKept(records[..n], k);
      assert after[IndexOf(before, candidate)].candidate == candidate;
    } else {
      assert after[IndexOf(before, candidate)].candidate == candidate;
    }
  }

  /** The records kept appear in the order in which their candidates first appeared. */
  lemma {:induction false} LatestKeepsOrder(records: seq<Record>, i: nat, j: nat)
    requires i < j < |Latest(records)|
    ensures IndexOf(records, Latest(records)[i].candidate) < IndexOf(records, Latest(records)[j].candidate) < |records|
  {
    var n := |records| - 1;
    var before, after := Latest(records[..n]), Latest(records);
    assert i < |before| && before[i].candidate == after[i].candidate;
    if j < |before| {
      LatestKeepsOrder(records[..n], i, j);
    } else {
      var k := LatestIsLast(records[..n], i);
      if IndexOf(records, records[n].candidate) < n {
        EveryCandidateIsKept(records[..n], IndexOf(records, records[n].candidate));
      }
    }
  }

  /** The last record of a candidate is kept. */
  lemma LastIsKept(records: seq<Record>, k: nat)
    requires LastOf(records, k)
    ensures records[k] in Latest(records)
  {
    EveryCandidateIsKept(records, k);
    var i := IndexOf(Latest(records), records[k].candidate);
    var last := LatestIsLast(records, i);
    assert last == k;
  }

  /** The export's pass over the records: a dictionary by candidate, which keeps the place of the first. */
  method DeduplicatedRecords(records: seq<Record>) returns (kept: seq<Record>)
    ensures kept == Latest(records)
  {
    var order: seq<nat>, latest: map<nat, Record> := [], map[];
    for i := 0 to |records|
      invariant |order| == |Latest(records[..i])| && forall c :: c in latest <==> c in order
      invariant forall k | 0 <= k < |order| :: HoldsPlace(order, latest, Latest(records[..i]), k)
    {
      TakeNext(records, i);
      var record := records[i];
      ghost var before, at := Latest(records[..i]), IndexOf(Latest(records[..i]), record.candidate);
      forall k | 0 <= k < |order| ensures HoldsPlace(order, latest, before, k) && (k != at ==> order[k] != record.candidate) {
        assert HoldsPlace(order, latest, before, k);
        if k != at && order[k] == record.candidate {
          LatestHasNoRepeats(records[..i], if at < k then at else k, if at < k then k else at);
        }
      }
      assert at < |before| ==> order[at] in order && order[at] == record.candidate;
      if record.candidate !in latest {
        order := order + [record.candidate];
      }
      latest := latest[record.candidate := record];
    }
    assert records[..|records|] == records;
    kept := [];
    for k := 0 to |order|
      invariant kept == Latest(records)[..k]
    {
      assert HoldsPlace(order, latest, Latest(records), k);
      TakeNext(Latest(records), k);
      kept := kept + [latest[order[k]]];
    }
  }

  ghost predicate HoldsPlace(order: seq<nat>, latest: map<nat, Record>, kept: seq<Record>, k: int) {
    && 0 <= k < |order| && k < |kept| && order[k] in latest
    && latest[order[k]] == kept[k] && kept[k].candidate == order[k]
  }

  // ----- One entry per resume -----

  function Flat(records: seq<Record>): (r: seq<Resume>)
    ensures forall x :: x in r <==> exists i :: 0 <= i < |records| && x in records[i].resumes
  {
    if records == [] then [] else Flat(records[..|records| - 1]) + records[|records| - 1].resumes
  }

  /** The resumes of all records, record by record. */
  lemma {:induction false} FlatConcat(a: seq<Record>, b: seq<Record>)
    ensures Flat(a + b) == Flat(a) + Flat(b)
  {
    if b == [] {
      assert a + b == a;
    } else {
      var n := |b| - 1;
      FlatConcat(a, b[..n]);
      assert (a + b)[..|a| + n] == a + b[..n];
    }
  }

  lemma FlatOne(record: Record)
    ensures Flat([record]) == record.resumes
  {
    assert [record][..0] == [];
  }

  predicate HasId(resumes: seq<Resume>, id: nat) {
    exists i | 0 <= i < |resumes| :: resumes[i].id == id
  }

  /** The first resume of every id. */
  function Unique(resumes: seq<Resume>): seq<Resume> {
    if resumes == [] then []
    else
      var n := |resumes| - 1;
      var before := Unique(resumes[..n]);
      if HasId(before, resumes[n].id) then before else before + [resumes[n]]
  }

  /** Every resume is kept exactly once. */
  lemma {:induction false} UniqueKeepsEachOnce(resumes: seq<Resume>)
    ensures forall i, j | 0 <= i < j < |Unique(resumes)| :: Unique(resumes)[i].id != Unique(resumes)[j].id
    ensures forall id :: HasId(Unique(resumes), id) <==> HasId(resumes, id)
  {
    if resumes != [] {
      var n := |resumes| - 1;
      var before, after := Unique(resumes[..n]), Unique(resumes);
      UniqueKeepsEachOnce(resumes[..n]);
      forall id ensures HasId(after, id) <==> HasId(resumes, id) {
        assert HasId(resumes, id) <==> HasId(resumes[..n], id) || resumes[n].id == id by {
          HasIdNext(resumes[..n], resumes[n], id);
          assert resumes == resumes[..n] + [resumes[n]];
        }
        HasIdNext(before, resumes[n], id);
      }
    }
  }

  /** What is kept is the first of its id, and the order is kept. */
  lemma {:induction false} UniqueKeepsFirst(resumes: seq<Resume>) returns (at: seq<nat>)
    ensures |at| == |Unique(resumes)| && forall k | 0 <= k < |at| :: at[k] < |resumes| && Unique(resumes)[k] == resumes[at[k]]
    ensures forall k, m | 0 <= k < |at| && 0 <= m < at[k] :: resumes[m].id != resumes[at[k]].id
    ensures forall k, l | 0 <= k < l < |at| :: at[k] < at[l]
  {
    if resumes == [] {
      at := [];
    } else {
      var n := |resumes| - 1;
      var before := Unique(resumes[..n]);
      at := UniqueKeepsFirst(resumes[..n]);
      assert forall m | 0 <= m < n :: resumes[..n][m] == resumes[m];
      if !HasId(before, resumes[n].id) {
        UniqueKeepsEachOnce(resumes[..n]);
        assert !HasId(resumes[..n], resumes[n].id);
        at := at + [n];
      }
    }
  }

  lemma HasIdNext(resumes: seq<Resume>, resume: Resume, id: nat)
    ensures HasId(resumes + [resume], id) <==> HasId(resumes, id) || resume.id == id
  {
    var after := resumes + [resume];
    assert after[|resumes|] == resume;
    if HasId(resumes, id) {
      var i :| 0 <= i < |resumes| && resumes[i].id == id;
      assert after[i].id == id;
    }
  }

  ghost predicate Seen(seen: set<nat>, files: seq<Resume>) {
    forall id :: id in seen <==> HasId(files, id)
  }

  /** The resumes of all records, each once. */
  method CollectResumes(records: seq<Record>) returns (files: seq<Resume>)
    ensures files == Unique(Flat(records))
  {
    files := [];
    var seen: set<nat> := {};
    for r := 0 to |records|
      invariant files == Unique(Flat(records[..r])) && Seen(seen, files)
    {
      TakeNext(records, r);
      files, seen := AddResumes(records[r].resumes, files, seen, Flat(records[..r]));
    }
    assert records[..|records|] == records;
  }

  method AddResumes(resumes: seq<Resume>, known: seq<Resume>, seenIds: set<nat>, ghost before: seq<Resume>)
    returns (files: seq<Resume>, seen: set<nat>)
    requires known == Unique(before) && Seen(seenIds, known)
    ensures files == Unique(before + resumes) && Seen(seen, files)
  {
    files, seen := known, seenIds;
    assert before + resumes[..0] == before;
    for k := 0 to |resumes|
      invariant files == Unique(before + resumes[..k]) && Seen(seen, files)
    {
      UniqueNext(before, resumes, k);
      if resumes[k].id !in seen {
        SeenNext(seen, files, resumes[k]);
        seen := seen + {resumes[k].id};
        files := files + [resumes[k]];
      }
    }
    assert resumes[..|resumes|] == resumes;
  }

  lemma SeenNext(seen: set<nat>, files: seq<Resume>, resume: Resume)
    requires Seen(seen, files)
    ensures Seen(seen + {resume.id}, files + [resume])
  {
    forall id ensures HasId(files + [resume], id) <==> HasId(files, id) || resume.id == id {
      HasIdNext(files, resume, id);
    }
  }

  lemma UniqueNext(before: seq<Resume>, resumes: seq<Resume>, k: nat)
    requires k < |resumes|
    ensures var files := Unique(before + resumes[..k]);
      Unique(before + resumes[..k + 1]) == if HasId(files, resumes[k].id) then files else files + [resumes[k]]
  {
    var all := before + resumes[..k + 1];
    assert all[..|all| - 1] == before + resumes[..k];
  }

  // ----- The archive -----

  /** The last component of a path. */
  function BaseName(path: string): string {
    if path == "" || path[|path| - 1] == '/' then ""
    else BaseName(path[..|path| - 1]) + [path[|path| - 1]]
  }

  lemma {:induction false} BaseNameIsLast(path: string) returns (folder: string)
    ensures path == folder + BaseName(path) && '/' !in BaseName(path)
    ensures folder == "" || folder[|folder| - 1] == '/'
  {
    if path == "" || path[|path| - 1] == '/' {
      folder := path;
    } else {
      folder := BaseNameIsLast(path[..|path| - 1]);
    }
  }

  type Disk = string -> bool

  /** The resume names a file, and the file is there. */
  predicate IsAvailable(disk: Disk, resume: Resume) {
    BaseName(resume.path) != "" && disk(BaseName(resume.path))
  }

  /** The resumes that are, or are not, available. */
  function Select(disk: Disk, resumes: seq<Resume>, available: bool): (r: seq<Resume>)
    ensures forall x | x in r :: x in resumes && IsAvailable(disk, x) == available
  {
    if resumes == [] then []
    else
      var n := |resumes| - 1;
      var before := Select(disk, resumes[..n], available);
      if IsAvailable(disk, resumes[n]) == available then before + [resumes[n]] else before
  }

  lemma {:induction false} SelectPartitions(disk: Disk, resumes: seq<Resume>)
    ensures multiset(Select(disk, resumes, true)) + multiset(Select(disk, resumes, false)) == multiset(resumes)
  {
    if resumes != [] {
      var n := |resumes| - 1;
      var resume := resumes[n];
      SelectPartitions(disk, resumes[..n]);
      assert multiset(resumes) == multiset(resumes[..n]) + multiset{resume} by {
        assert resumes == resumes[..n] + [resume];
      }
      var there := IsAvailable(disk, resume);
      assert Select(disk, resumes, there) == Select(disk, resumes[..n], there) + [resume];
      assert Select(disk, resumes, !there) == Select(disk, resumes[..n], !there);
    }
  }

  /** The selected resumes stay in order. */
  lemma {:induction false} SelectKeepsOrder(disk: Disk, resumes: seq<Resume>, available: bool) returns (at: seq<nat>)
    ensures var selected := Select(disk, resumes, available);
      |at| == |selected| && forall k | 0 <= k < |at| :: at[k] < |resumes| && selected[k] == resumes[at[k]]
    ensures forall k, l | 0 <= k < l < |at| :: at[k] < at[l]
  {
    if resumes == [] {
      at := [];
    } else {
      var n := |resumes| - 1;
      at := SelectKeepsOrder(disk, resumes[..n], available);
      if IsAvailable(disk, resumes[n]) == available {
        at := at + [n];
      }
    }
  }

  lemma {:induction false} SelectSizes(disk: Disk, resumes: seq<Resume>)
    ensures |Select(disk, resumes, true)| + |Select(disk, resumes, false)| == |resumes|
  {
    if resumes != [] {
      SelectSizes(disk, resumes[..|resumes| - 1]);
    }
  }

  function FileOf(resume: Resume): File {
    File(resume.applyId, BaseName(resume.path))
  }

  function FilesOf(resumes: seq<Resume>): (files: seq<File>)
    ensures |files| == |resumes| && forall i | 0 <= i < |resumes| :: files[i] == FileOf(resumes[i])
  {
    if resumes == [] then [] else FilesOf(resumes[..|resumes| - 1]) + [FileOf(resumes[|resumes| - 1])]
  }

  /** The fixed members: the table, the folder, and the list of missing files. */
  datatype Fixed = Fixed(table: string, folder: string, missing: string)

  const FIXED := Fixed("简历库清单.xlsx", "简历文件/", "缺失简历文件清单.txt")
  const STYLE := Style("简历文件/", "（", "）")

  /** Neither list can be mistaken for the folder or for a file in it. */
  predicate Separate(fixed: Fixed, style: Style) {
    && style.folder == fixed.folder && style.open != "" && fixed.table != fixed.missing
    && !(fixed.folder <= fixed.table) && !(fixed.folder <= fixed.missing)
  }

  lemma RealNamesAreSeparate()
    ensures Separate(FIXED, STYLE)
  {
    assert FIXED.folder[2] != FIXED.table[2] && FIXED.folder[0] != FIXED.missing[0];
    assert FIXED.table[0] != FIXED.missing[0];
  }

  /** An archive: names[k] is the member that holds the file of stored[k]. */
  datatype Archive = Archive(names: seq<string>, stored: seq<Resume>, missing: seq<Resume>, records: nat)

  /** All members of an archive, in order. */
  function Members(fixed: Fixed, a: Archive): seq<string> {
    [fixed.table, fixed.folder] + a.names + if a.missing == [] then [] else [fixed.missing]
  }

  /** Splits the resumes into those with a file and those without. */
  method FindFiles(resumes: seq<Resume>, disk: Disk) returns (stored: seq<Resume>, missing: seq<Resume>)
    ensures stored == Select(disk, resumes, true) && missing == Select(disk, resumes, false)
  {
    stored, missing := [], [];
    for i := 0 to |resumes|
      invariant stored == Select(disk, resumes[..i], true) && missing == Select(disk, resumes[..i], false)
    {
      TakeNext(resumes, i);
      if IsAvailable(disk, resumes[i]) {
        stored := stored + [resumes[i]];
      } else {
        missing := missing + [resumes[i]];
      }
    }
    assert resumes[..|resumes|] == resumes;
  }

  /** Builds the archive: every resume of the kept records is stored or reported missing, exactly once, and no
      two members share a name. */
  method BuildArchive(records: seq<Record>, disk: Disk, fixed: Fixed, style: Style) returns (a: Archive)
    requires Separate(fixed, style)
    ensures multiset(a.stored) + multiset(a.missing) == multiset(Unique(Flat(Latest(records))))
    ensures |a.stored| + |a.missing| == |Unique(Flat(Latest(records)))| && a.records == |Latest(records)|
    ensures a.stored == Select(disk, Unique(Flat(Latest(records))), true)
    ensures a.missing == Select(disk, Unique(Flat(Latest(records))), false)
    ensures forall x | x in a.stored :: BaseName(x.path) != "" && disk(BaseName(x.path))
    ensures forall x | x in a.missing :: BaseName(x.path) == "" || !disk(BaseName(x.path))
    ensures |a.names| == |a.stored| && Distinct(Members(fixed, a))
    ensures forall k: nat | k < |a.stored| :: WellNamed(style, FilesOf(a.stored), a.names, k)
    ensures forall k: nat, x | LastOf(records, k) && x in records[k].resumes :: HasId(a.stored, x.id) || HasId(a.missing, x.id)
    ensures forall x | x in a.stored || x in a.missing :: exists k: nat :: LastOf(records, k) && x in records[k].resumes
    ensures forall i, j | 0 <= i < j < |a.stored| :: a.stored[i].id != a.stored[j].id
    ensures forall i, j | 0 <= i < j < |a.missing| :: a.missing[i].id != a.missing[j].id
    ensures forall i, j | 0 <= i < |a.stored| && 0 <= j < |a.missing| :: a.stored[i].id != a.missing[j].id
  {
    var kept := DeduplicatedRecords(records);
    var resumes := CollectResumes(kept);
    var stored, missing := FindFiles(resumes, disk);
    SelectPartitions(disk, resumes);
    SelectSizes(disk, resumes);
    var names := NameFiles(style, FilesOf(stored));
    a := Archive(names, stored, missing, |kept|);
    NamesAreInFolder(disk, style, stored, names);
    MembersAreDistinct(fixed, style, names);
    forall k: nat, x | LastOf(records, k) && x in records[k].resumes ensures HasId(stored, x.id) || HasId(missing, x.id) {
      ResumeIsAccounted(records, k, x, disk);
    }
    forall x | x in stored || x in missing ensures exists k: nat :: LastOf(records, k) && x in records[k].resumes {
      ResumeIsOfLastRecord(records, x);
    }
    SelectedIdsDiffer(disk, Flat(kept));
  }

  lemma ResumeIsAccounted(records: seq<Record>, k: nat, x: Resume, disk: Disk)
    requires LastOf(records, k) && x in records[k].resumes
    ensures var resumes := Unique(Flat(Latest(records)));
      HasId(Select(disk, resumes, true), x.id) || HasId(Select(disk, resumes, false), x.id)
  {
    LastIsKept(records, k);
    var flat := Flat(Latest(records));
    var i :| 0 <= i < |Latest(records)| && Latest(records)[i] == records[k];
    assert x in flat;
    var m :| 0 <= m < |flat| && flat[m] == x;
    UniqueKeepsEachOnce(flat);
    assert HasId(flat, x.id);
    var u :| 0 <= u < |Unique(flat)| && Unique(flat)[u].id == x.id;
    var kept := Unique(flat)[u];
    InOneSelection(disk, Unique(flat), kept);
    var s := Select(disk, Unique(flat), IsAvailable(disk, kept));
    var v :| 0 <= v < |s| && s[v] == kept;
    assert s[v].id == x.id;
  }

  lemma {:induction false} InOneSelection(disk: Disk, resumes: seq<Resume>, x: Resume)
    requires x in resumes
    ensures x in Select(disk, resumes, IsAvailable(disk, x))
  {
    var n := |resumes| - 1;
    if x != resumes[n] {
      assert x in resumes[..n];
      InOneSelection(disk, resumes[..n], x);
    }
  }

  lemma ResumeIsOfLastRecord(records: seq<Record>, x: Resume)
    requires x in Unique(Flat(Latest(records)))
    ensures exists k: nat :: LastOf(records, k) && x in records[k].resumes
  {
    var flat := Flat(Latest(records));
    var at := UniqueKeepsFirst(flat);
    var u :| 0 <= u < |Unique(flat)| && Unique(flat)[u] == x;
    assert x == flat[at[u]] && x in flat;
    var i :| 0 <= i < |Latest(records)| && x in Latest(records)[i].resumes;
    var k := LatestIsLast(records, i);
  }

  ghost predicate DifferentIds(resumes: seq<Resume>) {
    forall i, j | 0 <= i < j < |resumes| :: resumes[i].id != resumes[j].id
  }

  lemma SelectedIdsDiffer(disk: Disk, flat: seq<Resume>)
    ensures var stored, missing := Select(disk, Unique(flat), true), Select(disk, Unique(flat), false);
      && DifferentIds(stored) && DifferentIds(missing)
      && forall i, j | 0 <= i < |stored| && 0 <= j < |missing| :: stored[i].id != missing[j].id
  {
    var resumes := Unique(flat);
    UniqueKeepsEachOnce(flat);
    SelectStaysDifferent(disk, resumes, true);
    SelectStaysDifferent(disk, resumes, false);
    var stored, missing := Select(disk, resumes, true), Select(disk, resumes, false);
    forall i, j | 0 <= i < |stored| && 0 <= j < |missing| ensures stored[i].id != missing[j].id {
      assert stored[i] in stored && missing[j] in missing;
      var k, l :| 0 <= k < |resumes| && 0 <= l < |resumes| && resumes[k] == stored[i] && resumes[l] == missing[j];
      assert k != l;
    }
  }

  lemma SelectStaysDifferent(disk: Disk, resumes: seq<Resume>, available: bool)
    requires DifferentIds(resumes)
    ensures DifferentIds(Select(disk, resumes, available))
  {
    var at := SelectKeepsOrder(disk, resumes, available);
  }

  ghost predicate InFolder(folder: string, name: string) {
    folder <= name && name != folder
  }

  lemma MembersAreDistinct(fixed: Fixed, style: Style, names: seq<string>)
    requires Separate(fixed, style) && Distinct(names)
    requires forall k: nat | k < |names| :: InFolder(fixed.folder, names[k])
    ensures Distinct([fixed.table, fixed.folder] + names + [])
    ensures Distinct([fixed.table, fixed.folder] + names + [fixed.missing])
  {
  }

  lemma NamesAreInFolder(disk: Disk, style: Style, stored: seq<Resume>, names: seq<string>)
    requires |names| == |stored| && style.open != "" && forall x :: x in stored ==> IsAvailable(disk, x)
    requires forall k: nat | k < |stored| :: WellNamed(style, FilesOf(stored), names, k)
    ensures forall k: nat | k < |names| :: InFolder(style.folder, names[k])
  {
    forall k: nat | k < |names| ensures InFolder(style.folder, names[k]) {
      assert stored[k] in stored && WellNamed(style, FilesOf(stored), names, k);
      NameIsInFolder(style, FileOf(stored[k]), Shared(FilesOf(stored), FileOf(stored[k]).name), Elements(names[..k]), names[k]);
    }
  }

  lemma NameIsInFolder(style: Style, file: File, shared: bool, used: set<string>, name: string)
    requires FirstFree(style, file, shared, used, name) && file.name != "" && style.open != ""
    ensures InFolder(style.folder, name)
  {
    if name != Base(style, file, shared) {
      var k: nat :| k >= 2 && IsNumber(style, file, used, name, k);
    }
  }

  lemma {:induction false} DistinctOccurOnce(s: seq<string>, x: string)
    requires Distinct(s)
    ensures multiset(s)[x] <= 1
  {
    if s != [] {
      var n := |s| - 1;
      assert s == s[..n] + [s[n]];
      DistinctOccurOnce(s[..n], x);
      assert forall i | 0 <= i < n :: s[i] != s[n];
      assert s[n] !in s[..n];
    }
  }

  /** Files whose names on disk differ keep their names. */
  lemma {:induction false} DistinctNamesAreKept(style: Style, files: seq<File>, names: seq<string>, k: nat)
    requires |names| == |files| && Distinct(NamesOf(files)) && k < |files|
    requires forall m: nat | m < |files| :: WellNamed(style, files, names, m)
    ensures names[k] == style.folder + files[k].name
  {
    DistinctOccurOnce(NamesOf(files), files[k].name);
    assert WellNamed(style, files, names, k);
    forall m: nat | m < k ensures names[m] != style.folder + files[k].name {
      DistinctNamesAreKept(style, files, names, m);
      assert NamesOf(files)[m] != NamesOf(files)[k];
      assert names[m][|style.folder|..] == files[m].name && (style.folder + files[k].name)[|style.folder|..] == files[k].name;
    }
  }
}
