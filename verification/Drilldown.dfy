/** The rankings of the dashboard, and the candidates found by drilling down on a row. */
module Drilldown {
  import opened Wrappers
  import opened Decimal
  import opened Departments
  import opened AnalyticsScope
  import CandidateStatus

  /** The key of a dashboard row: an id, a label that stands in for a missing id, or a code. */
  datatype Key = Id(id: nat) | Text(text: string) | Code(code: string)

  datatype Listing = Listing(key: Key, name: string)

  /** One occurrence to be counted: a candidate, and the dashboard row it belongs to, if any. */
  datatype Row = Row(candidate: nat, listing: Option<Listing>)

  function KeyText(k: Key): string {
    match k
    case Id(id) => Digits(id)
    case Text(text) => "text:" + text
    case Code(code) => code
  }

  // ----- Counting -----

  /** The candidates that occur in a dashboard row. */
  function Listed(rows: seq<Row>, l: Listing): set<nat> {
    if rows == [] then {}
    else
      var n := |rows| - 1;
      var before := Listed(rows[..n], l);
      if rows[n].listing == Some(l) then before + {rows[n].candidate} else before
  }

  lemma {:induction false} ListedIff(rows: seq<Row>, l: Listing, c: nat)
    ensures c in Listed(rows, l) <==> exists i :: 0 <= i < |rows| && rows[i] == Row(c, Some(l))
  {
    if rows != [] {
      var n := |rows| - 1;
      ListedIff(rows[..n], l, c);
      if i :| 0 <= i < |rows| && rows[i] == Row(c, Some(l)) {
        assert i < n ==> rows[..n][i] == Row(c, Some(l));
      }
      if i :| 0 <= i < n && rows[..n][i] == Row(c, Some(l)) {
        assert rows[i] == Row(c, Some(l));
      }
    }
  }

  function SetOf(groups: map<Listing, set<nat>>, l: Listing): set<nat> {
    if l in groups then groups[l] else {}
  }

  function Occurrences(rows: seq<Row>, l: Listing): nat {
    if rows == [] then 0
    else
      var n := |rows| - 1;
      Occurrences(rows[..n], l) + if rows[n].listing == Some(l) then 1 else 0
  }

  function CountIn(counts: map<Listing, nat>, l: Listing): nat {
    if l in counts then counts[l] else 0
  }

  /** No candidate occurs twice in a dashboard row. */
  ghost predicate OncePerCandidate(rows: seq<Row>, l: Listing) {
    forall i, j | 0 <= i < j < |rows| && rows[i].listing == Some(l) && rows[j].listing == Some(l) ::
      rows[i].candidate != rows[j].candidate
  }

  /** Counting occurrences counts candidates exactly when no candidate occurs twice. */
  lemma {:induction false} OccurrencesAreCandidatesIff(rows: seq<Row>, l: Listing)
    ensures |Listed(rows, l)| <= Occurrences(rows, l)
    ensures |Listed(rows, l)| == Occurrences(rows, l) <==> OncePerCandidate(rows, l)
  {
    if rows != [] {
      var n := |rows| - 1;
      OccurrencesAreCandidatesIff(rows[..n], l);
      OnceIff(rows, l);
    }
  }

  lemma OnceIff(rows: seq<Row>, l: Listing)
    requires rows != []
    ensures var n := |rows| - 1;
      OncePerCandidate(rows, l) <==>
        OncePerCandidate(rows[..n], l) && (rows[n].listing == Some(l) ==> rows[n].candidate !in Listed(rows[..n], l))
  {
    var n := |rows| - 1;
    ListedIff(rows[..n], l, rows[n].candidate);
    if OncePerCandidate(rows, l) && rows[n].listing == Some(l) {
      forall i | 0 <= i < n && rows[..n][i].listing == Some(l) ensures rows[..n][i].candidate != rows[n].candidate {
        assert rows[..n][i] == rows[i];
      }
    }
    if OncePerCandidate(rows[..n], l) && (rows[n].listing == Some(l) ==> rows[n].candidate !in Listed(rows[..n], l)) {
      forall i, j | 0 <= i < j < |rows| && rows[i].listing == Some(l) && rows[j].listing == Some(l)
        ensures rows[i].candidate != rows[j].candidate
      {
        assert rows[..n][i] == Row(rows[i].candidate, Some(l));
        if j < n {
          assert rows[..n][j] == rows[j];
        }
      }
    }
  }

  // ----- Drilling down -----

  /** A pair of the request: the text of a key, and a label that may be left empty. */
  datatype Pair = Pair(key: string, name: string)

  predicate RowMatches(pairs: seq<Pair>, key: string, name: string) {
    exists i | 0 <= i < |pairs| :: key == pairs[i].key && (pairs[i].name == "" || name == pairs[i].name)
  }

  predicate Matches(pairs: seq<Pair>, row: Row) {
    row.listing.Some? && RowMatches(pairs, KeyText(row.listing.value.key), row.listing.value.name)
  }

  /** The candidates whose occurrences match the request. */
  function Found(rows: seq<Row>, pairs: seq<Pair>): set<nat> {
    if rows == [] then {}
    else
      var n := |rows| - 1;
      Found(rows[..n], pairs) + if Matches(pairs, rows[n]) then {rows[n].candidate} else {}
  }

  /** A candidate is found if one of its occurrences has the key of a pair, and its label unless that is empty. */
  lemma {:induction false} FoundIff(rows: seq<Row>, pairs: seq<Pair>, c: nat)
    ensures c in Found(rows, pairs) <==> exists i, k :: 0 <= i < |rows| && 0 <= k < |pairs| && Answers(rows[i], pairs[k], c)
  {
    if rows != [] {
      var n := |rows| - 1;
      FoundIff(rows[..n], pairs, c);
      if i, k :| 0 <= i < n && 0 <= k < |pairs| && Answers(rows[..n][i], pairs[k], c) {
        assert Answers(rows[i], pairs[k], c);
      }
      if i, k :| 0 <= i < |rows| && 0 <= k < |pairs| && Answers(rows[i], pairs[k], c) {
        assert i < n ==> Answers(rows[..n][i], pairs[k], c);
      }
      if c in Found(rows, pairs) && c !in Found(rows[..n], pairs) {
        var k :| 0 <= k < |pairs| && Answers(rows[n], pairs[k], c);
      }
    }
  }

  ghost predicate Answers(row: Row, pair: Pair, c: nat) {
    && row.candidate == c && row.listing.Some? && KeyText(row.listing.value.key) == pair.key
    && (pair.name != "" ==> row.listing.value.name == pair.name)
  }

  function InListing(l: Listing): Row -> bool {
    (row: Row) => row.listing == Some(l)
  }

  lemma OccurrencesAreSize(rows: seq<Row>, l: Listing)
    ensures Occurrences(rows, l) == |set i | 0 <= i < |rows| && rows[i].listing == Some(l)|
  {
    OccurrencesCount(rows, l);
    CountWhereIsSize(rows, InListing(l));
    assert PositionsWhere(rows, InListing(l)) == set i | 0 <= i < |rows| && rows[i].listing == Some(l);
  }

  lemma {:induction false} OccurrencesCount(rows: seq<Row>, l: Listing)
    ensures Occurrences(rows, l) == CountWhere(rows, InListing(l))
  {
    if rows != [] {
      OccurrencesCount(rows[..|rows| - 1], l);
    }
  }

  lemma FoundStep(rows: seq<Row>, row: Row, pairs: seq<Pair>)
    ensures Found(rows + [row], pairs) == Found(rows, pairs) + if Matches(pairs, row) then {row.candidate} else {}
  {
    assert (rows + [row])[..|rows|] == rows;
  }

  lemma ListedStep(rows: seq<Row>, row: Row, l: Listing)
    ensures Listed(rows + [row], l) == if row.listing == Some(l) then Listed(rows, l) + {row.candidate} else Listed(rows, l)
  {
    assert (rows + [row])[..|rows|] == rows;
  }

  lemma OccurrencesStep(rows: seq<Row>, row: Row, l: Listing)
    ensures Occurrences(rows + [row], l) == Occurrences(rows, l) + if row.listing == Some(l) then 1 else 0
  {
    assert (rows + [row])[..|rows|] == rows;
  }

  /** The request that the dashboard makes for a row; for codes the label is not compared. */
  function PairFor(l: Listing): Pair {
    if l.key.Code? then Pair(KeyText(l.key), "") else Pair(KeyText(l.key), l.name)
  }

  /** The rows of one ranking are all coded, or none is; names are not empty. */
  predicate IsListing(l: Listing, coded: bool) {
    l.key.Code? == coded && l.name != "" && (l.key.Code? ==> l.name == l.key.code)
  }

  ghost predicate AllListings(rows: seq<Row>, coded: bool) {
    forall i | 0 <= i < |rows| && rows[i].listing.Some? :: IsListing(rows[i].listing.value, coded)
  }

  lemma TextIsNoNumber(n: nat, text: string)
    ensures Digits(n) != "text:" + text
  {
    DigitsAreDigits(n);
    assert ("text:" + text)[0] == 't';
  }

  lemma KeyTextIsInjective(a: Key, b: Key)
    requires a.Code? == b.Code? && KeyText(a) == KeyText(b)
    ensures a == b
  {
    if a.Id? && b.Id? {
      DigitsAreInjective(a.id, b.id);
    } else if a.Id? && b.Text? {
      TextIsNoNumber(a.id, b.text);
    } else if a.Text? && b.Id? {
      TextIsNoNumber(b.id, a.text);
    } else if a.Text? && b.Text? {
      assert a.text == KeyText(a)[5..] && b.text == KeyText(b)[5..];
    }
  }

  /** Asking for a row finds exactly the occurrences of that row. */
  lemma PairFindsRow(row: Row, l: Listing, coded: bool)
    requires IsListing(l, coded) && (row.listing.Some? ==> IsListing(row.listing.value, coded))
    ensures Matches([PairFor(l)], row) <==> row.listing == Some(l)
  {
    if row.listing.Some? {
      var key := row.listing.value.key;
      assert [PairFor(l)][0] == PairFor(l);
      if KeyText(key) == KeyText(l.key) {
        KeyTextIsInjective(key, l.key);
      }
    }
  }

  /** Drilling down on a row finds exactly the candidates of that row. */
  lemma {:induction false} DrilldownFindsRow(rows: seq<Row>, l: Listing, coded: bool)
    requires AllListings(rows, coded) && IsListing(l, coded)
    ensures Found(rows, [PairFor(l)]) == Listed(rows, l)
  {
    if rows != [] {
      var n := |rows| - 1;
      DrilldownFindsRow(rows[..n], l, coded);
      PairFindsRow(rows[n], l, coded);
    }
  }

  // ----- Rankings over attempts: source, rejection reason, department, primary department -----

  const UNALLOCATED := "未分配"
  const ORPHANED := "未归属一级部门"

  datatype Dimension = Source | Reason | Department | PrimaryDepartment

  predicate IsCoded(dimension: Dimension) {
    dimension.Source? || dimension.Reason?
  }

  function CodeListing(code: string): Option<Listing> {
    if code == "" then None else Some(Listing(Code(code), code))
  }

  /** A department by its id, or the label that stands in for it. */
  function DepartmentListing(depts: seq<Departments.Department>, d: Option<nat>, missing: string): Listing {
    var name := if NameOf(depts, d) != "" then NameOf(depts, d) else missing;
    Listing(if d.Some? then Id(d.value) else Text(name), name)
  }

  /** The dashboard row of an attempt. */
  function ListingOf(depts: seq<Departments.Department>, dimension: Dimension, a: Attempt): Option<Listing> {
    match dimension
    case Source => CodeListing(a.source)
    case Reason => if a.status.Rejected? then CodeListing(a.reasonCode) else None
    case Department => Some(DepartmentListing(depts, SecondaryId(depts, a.department), UNALLOCATED))
    case PrimaryDepartment => Some(DepartmentListing(depts, PrimaryId(depts, a.department), ORPHANED))
  }

  /** The row of a department: its id and name, or the label of a missing department or name. */
  ghost predicate ShowsDepartment(depts: seq<Departments.Department>, d: Option<nat>, missing: string, l: Listing) {
    && l.key == (if d == None then Text(missing) else Id(d.value))
    && (d.Some? && d.value < |depts| && depts[d.value].name != "" ==> l.name == depts[d.value].name)
    && (d.None? || d.value >= |depts| || depts[d.value].name == "" ==> l.name == missing)
  }

  /** The rows of an attempt: its source, the reason of a rejection, and the departments above it; an attempt without a
      code has no row among the codes. */
  lemma RowsOfAttempt(depts: seq<Departments.Department>, a: Attempt)
    ensures ListingOf(depts, Source, a) == if a.source != "" then Some(Listing(Code(a.source), a.source)) else None
    ensures ListingOf(depts, Reason, a) ==
      if a.status == CandidateStatus.Rejected && a.reasonCode != "" then Some(Listing(Code(a.reasonCode), a.reasonCode)) else None
    ensures var l := ListingOf(depts, Dimension.Department, a);
      l.Some? && ShowsDepartment(depts, SecondaryId(depts, a.department), "未分配", l.value)
    ensures var l := ListingOf(depts, PrimaryDepartment, a);
      l.Some? && ShowsDepartment(depts, PrimaryId(depts, a.department), "未归属一级部门", l.value)
  {
  }

  function AttemptRows(depts: seq<Departments.Department>, dimension: Dimension, attempts: seq<Attempt>): (rows: seq<Row>)
    ensures |rows| == |attempts|
    ensures forall i | 0 <= i < |rows| :: rows[i] == Row(attempts[i].candidate, ListingOf(depts, dimension, attempts[i]))
  {
    if attempts == [] then []
    else
      var n := |attempts| - 1;
      AttemptRows(depts, dimension, attempts[..n]) + [Row(attempts[n].candidate, ListingOf(depts, dimension, attempts[n]))]
  }

  lemma AttemptRowsStep(depts: seq<Departments.Department>, dimension: Dimension, attempts: seq<Attempt>, i: nat)
    requires i < |attempts|
    ensures AttemptRows(depts, dimension, attempts[..i + 1]) ==
      AttemptRows(depts, dimension, attempts[..i]) + [Row(attempts[i].candidate, ListingOf(depts, dimension, attempts[i]))]
  {
    TakeNext(attempts, i);
  }

  /** The groups hold the candidates of the dashboard rows. */
  ghost predicate Groups(groups: map<Listing, set<nat>>, rows: seq<Row>) {
    forall l :: SetOf(groups, l) == Listed(rows, l)
  }

  lemma GroupsStep(groups: map<Listing, set<nat>>, rows: seq<Row>, candidate: nat, l: Listing)
    requires Groups(groups, rows)
    ensures Groups(groups[l := SetOf(groups, l) + {candidate}], rows + [Row(candidate, Some(l))])
  {
    var row, groups' := Row(candidate, Some(l)), groups[l := SetOf(groups, l) + {candidate}];
    var rows' := rows + [row];
    forall k ensures SetOf(groups', k) == Listed(rows', k) {
      ListedStep(rows, row, k);
      assert SetOf(groups, k) == Listed(rows, k);
    }
  }

  lemma GroupsSkip(groups: map<Listing, set<nat>>, rows: seq<Row>, candidate: nat)
    requires Groups(groups, rows)
    ensures Groups(groups, rows + [Row(candidate, None)])
  {
    var row := Row(candidate, None);
    var rows' := rows + [row];
    forall k ensures SetOf(groups, k) == Listed(rows', k) {
      ListedStep(rows, row, k);
    }
  }

  lemma GroupsAttempt(groups: map<Listing, set<nat>>, depts: seq<Departments.Department>, dimension: Dimension,
                      attempts: seq<Attempt>, i: nat, l: Listing)
    requires i < |attempts| && ListingOf(depts, dimension, attempts[i]) == Some(l)
    requires Groups(groups, AttemptRows(depts, dimension, attempts[..i]))
    ensures Groups(groups[l := SetOf(groups, l) + {attempts[i].candidate}], AttemptRows(depts, dimension, attempts[..i + 1]))
  {
    AttemptRowsStep(depts, dimension, attempts, i);
    GroupsStep(groups, AttemptRows(depts, dimension, attempts[..i]), attempts[i].candidate, l);
  }

  function Departmental(primary: bool): Dimension {
    if primary then PrimaryDepartment else Dimension.Department
  }

  /** The dashboard row that the rankings of departments use. */
  method RankedDepartment(depts: seq<Departments.Department>, primary: bool, a: Attempt) returns (l: Listing)
    ensures ListingOf(depts, Departmental(primary), a) == Some(l)
  {
    var d, level := a.department, LevelOf(depts, a.department);
    if primary {
      if level == 2 {
        d := ParentOf(depts, d);
      } else if level == 3 {
        d := ParentOf(depts, ParentOf(depts, d));
      } else if level != 1 {
        d := None;
      }
    } else if level == 3 {
      d := ParentOf(depts, d);
    } else if level != 2 {
      d := None;
    }
    var title := NameOf(depts, d);
    if title == "" {
      title := if primary then ORPHANED else UNALLOCATED;
    }
    l := Listing(if d.None? then Text(title) else Id(d.value), title);
  }

  /** The ranking of departments of the first or the second level. */
  method DepartmentRanking(depts: seq<Departments.Department>, primary: bool, attempts: seq<Attempt>)
    returns (groups: map<Listing, set<nat>>)
    ensures Groups(groups, AttemptRows(depts, Departmental(primary), attempts))
  {
    groups := map[];
    for i := 0 to |attempts|
      invariant Groups(groups, AttemptRows(depts, Departmental(primary), attempts[..i]))
    {
      var l := RankedDepartment(depts, primary, attempts[i]);
      GroupsAttempt(groups, depts, Departmental(primary), attempts, i, l);
      groups := groups[l := SetOf(groups, l) + {attempts[i].candidate}];
    }
    assert attempts[..|attempts|] == attempts;
  }

  /** The distribution of a field over the attempts, rejection reasons over the rejected ones only. */
  method CodeRanking(depts: seq<Departments.Department>, dimension: Dimension, attempts: seq<Attempt>)
    returns (groups: map<Listing, set<nat>>)
    requires IsCoded(dimension)
    ensures Groups(groups, AttemptRows(depts, dimension, attempts))
  {
    groups := map[];
    for i := 0 to |attempts|
      invariant Groups(groups, AttemptRows(depts, dimension, attempts[..i]))
    {
      var a := attempts[i];
      var code := if dimension.Source? then a.source else if a.status.Rejected? then a.reasonCode else "";
      if code == "" {
        AttemptRowsStep(depts, dimension, attempts, i);
        GroupsSkip(groups, AttemptRows(depts, dimension, attempts[..i]), a.candidate);
        continue;
      }
      var l := Listing(Code(code), code);
      GroupsAttempt(groups, depts, dimension, attempts, i, l);
      groups := groups[l := SetOf(groups, l) + {a.candidate}];
    }
    assert attempts[..|attempts|] == attempts;
  }

  /** The matched candidates are those found for the request. */
  ghost predicate Matched(matched: seq<nat>, rows: seq<Row>, pairs: seq<Pair>) {
    forall c :: c in matched <==> c in Found(rows, pairs)
  }

  lemma MatchedStep(matched: seq<nat>, rows: seq<Row>, row: Row, pairs: seq<Pair>)
    requires Matched(matched, rows, pairs)
    ensures Matched(if Matches(pairs, row) then matched + [row.candidate] else matched, rows + [row], pairs)
  {
    FoundStep(rows, row, pairs);
  }

  lemma MatchedAttempt(matched: seq<nat>, depts: seq<Departments.Department>, dimension: Dimension, attempts: seq<Attempt>,
                       i: nat, pairs: seq<Pair>)
    requires i < |attempts| && Matched(matched, AttemptRows(depts, dimension, attempts[..i]), pairs)
    ensures Matched(if MatchesAttempt(depts, dimension, attempts[i], pairs) then matched + [attempts[i].candidate] else matched,
                    AttemptRows(depts, dimension, attempts[..i + 1]), pairs)
  {
    AttemptRowsStep(depts, dimension, attempts, i);
    MatchedStep(matched, AttemptRows(depts, dimension, attempts[..i]),
                Row(attempts[i].candidate, ListingOf(depts, dimension, attempts[i])), pairs);
  }

  predicate MatchesAttempt(depts: seq<Departments.Department>, dimension: Dimension, a: Attempt, pairs: seq<Pair>) {
    Matches(pairs, Row(a.candidate, ListingOf(depts, dimension, a)))
  }

  /** The comparison that drilling down makes for the department of an attempt. */
  method DepartmentMatches(depts: seq<Departments.Department>, primary: bool, a: Attempt, pairs: seq<Pair>) returns (matches: bool)
    ensures matches == MatchesAttempt(depts, Departmental(primary), a, pairs)
  {
    var department, level, id, title := a.department, LevelOf(depts, a.department), None, "";
    if primary {
      if level == 1 {
        id := department;
      } else if level == 2 {
        id := ParentOf(depts, department);
      } else if level == 3 {
        id := ParentOf(depts, ParentOf(depts, department));
      }
      title := if NameOf(depts, id) != "" then NameOf(depts, id) else ORPHANED;
    } else {
      if level == 2 {
        id := department;
      } else if level == 3 {
        id := ParentOf(depts, department);
      }
      title := if NameOf(depts, id) != "" then NameOf(depts, id) else UNALLOCATED;
    }
    var key := if id.Some? then Digits(id.value) else "text:" + title;
    matches := RowMatches(pairs, key, title);
  }

  /** Drilling down on departments of the first or the second level. */
  method DrillDepartments(depts: seq<Departments.Department>, primary: bool, attempts: seq<Attempt>, pairs: seq<Pair>)
    returns (matched: seq<nat>)
    ensures Matched(matched, AttemptRows(depts, Departmental(primary), attempts), pairs)
  {
    matched := [];
    for i := 0 to |attempts|
      invariant Matched(matched, AttemptRows(depts, Departmental(primary), attempts[..i]), pairs)
    {
      var matches := DepartmentMatches(depts, primary, attempts[i], pairs);
      MatchedAttempt(matched, depts, Departmental(primary), attempts, i, pairs);
      if matches {
        matched := matched + [attempts[i].candidate];
      }
    }
    assert attempts[..|attempts|] == attempts;
  }

  /** The request for some codes, whose labels are not compared. */
  function CodePairs(values: seq<string>): (pairs: seq<Pair>)
    ensures |pairs| == |values| && forall i | 0 <= i < |pairs| :: pairs[i] == Pair(values[i], "")
  {
    if values == [] then [] else CodePairs(values[..|values| - 1]) + [Pair(values[|values| - 1], "")]
  }

  lemma CodesMatch(values: seq<string>, code: string)
    ensures RowMatches(CodePairs(values), code, code) <==> code in values
  {
    if code in values {
      var i :| 0 <= i < |values| && values[i] == code;
      assert CodePairs(values)[i] == Pair(code, "");
    }
  }

  /** The filter of the query for codes. */
  predicate HasCode(dimension: Dimension, a: Attempt, values: seq<string>) {
    (dimension.Source? && a.source in values) || (dimension.Reason? && a.status.Rejected? && a.reasonCode in values)
  }

  lemma CodeRowMatches(depts: seq<Departments.Department>, dimension: Dimension, a: Attempt, values: seq<string>)
    requires IsCoded(dimension) && "" !in values
    ensures MatchesAttempt(depts, dimension, a, CodePairs(values)) <==> HasCode(dimension, a, values)
  {
    CodesMatch(values, if dimension.Source? then a.source else a.reasonCode);
  }

  /** Drilling down on codes; the empty code, which no ranking lists, would find the attempts without one. */
  method DrillCodes(depts: seq<Departments.Department>, dimension: Dimension, attempts: seq<Attempt>, values: seq<string>)
    returns (matched: seq<nat>)
    requires IsCoded(dimension)
    ensures "" !in values ==> Matched(matched, AttemptRows(depts, dimension, attempts), CodePairs(values))
  {
    matched := [];
    for i := 0 to |attempts|
      invariant "" !in values ==> Matched(matched, AttemptRows(depts, dimension, attempts[..i]), CodePairs(values))
    {
      if "" !in values {
        MatchedAttempt(matched, depts, dimension, attempts, i, CodePairs(values));
        CodeRowMatches(depts, dimension, attempts[i], values);
      }
      if HasCode(dimension, attempts[i], values) {
        matched := matched + [attempts[i].candidate];
      }
    }
    assert attempts[..|attempts|] == attempts;
  }

  lemma AttemptsAreListed(depts: seq<Departments.Department>, dimension: Dimension, a: Attempt)
    requires ListingOf(depts, dimension, a).Some?
    ensures IsListing(ListingOf(depts, dimension, a).value, IsCoded(dimension))
  {
    assert |UNALLOCATED| > 0 && |ORPHANED| > 0;
  }

  lemma AttemptRowsAreListed(depts: seq<Departments.Department>, dimension: Dimension, attempts: seq<Attempt>)
    ensures AllListings(AttemptRows(depts, dimension, attempts), IsCoded(dimension))
  {
    var rows := AttemptRows(depts, dimension, attempts);
    forall i | 0 <= i < |rows| && rows[i].listing.Some? ensures IsListing(rows[i].listing.value, IsCoded(dimension)) {
      AttemptsAreListed(depts, dimension, attempts[i]);
    }
  }

  lemma ListedHasListing(rows: seq<Row>, l: Listing, coded: bool)
    requires AllListings(rows, coded) && Listed(rows, l) != {}
    ensures IsListing(l, coded)
  {
    var c :| c in Listed(rows, l);
    ListedIff(rows, l, c);
    var i :| 0 <= i < |rows| && rows[i] == Row(c, Some(l));
    assert rows[i].listing.Some?;
  }

  /** For every source, rejection reason, department and primary department that the dashboard lists, the row
      counts exactly the candidates that drilling down on it finds. */
  lemma AttemptRowsDrillDown(depts: seq<Departments.Department>, dimension: Dimension, attempts: seq<Attempt>, l: Listing)
    requires Listed(AttemptRows(depts, dimension, attempts), l) != {}
    ensures Found(AttemptRows(depts, dimension, attempts), [PairFor(l)]) == Listed(AttemptRows(depts, dimension, attempts), l)
  {
    var rows := AttemptRows(depts, dimension, attempts);
    AttemptRowsAreListed(depts, dimension, attempts);
    ListedHasListing(rows, l, IsCoded(dimension));
    DrilldownFindsRow(rows, l, IsCoded(dimension));
  }

  // ----- Rankings by counting: jobs and school tags -----

  const UNCLASSIFIED := "未分类"

  function FirstTitle(titles: seq<string>): string {
    if titles == [] then UNCLASSIFIED else if titles[0] != "" then titles[0] else FirstTitle(titles[1..])
  }

  lemma {:induction false} TitleIsNotEmpty(titles: seq<string>)
    ensures FirstTitle(titles) != ""
  {
    if titles != [] && titles[0] == "" {
      TitleIsNotEmpty(titles[1..]);
    } else {
      assert |UNCLASSIFIED| > 0;
    }
  }

  function JobListing(r: Resume): Listing {
    var title := FirstTitle(r.titles);
    Listing(if r.job.Some? then Id(r.job.value) else Text(title), title)
  }

  /** The row of a resume: its job, under its first title that is not empty; without a job, only the title. */
  lemma {:induction false} JobListingIs(r: Resume, i: nat)
    requires i <= |r.titles| && (forall k | 0 <= k < i :: r.titles[k] == "") && (i < |r.titles| ==> r.titles[i] != "")
    ensures var title := if i < |r.titles| then r.titles[i] else "未分类";
      && JobListing(r).name == title
      && JobListing(r).key == if r.job == None then Text(title) else Id(r.job.value)
  {
    FirstTitleIs(r.titles, i);
  }

  lemma {:induction false} FirstTitleIs(titles: seq<string>, i: nat)
    requires i <= |titles| && (forall k | 0 <= k < i :: titles[k] == "") && (i < |titles| ==> titles[i] != "")
    ensures FirstTitle(titles) == if i < |titles| then titles[i] else "未分类"
  {
    if i > 0 {
      FirstTitleIs(titles[1..], i - 1);
    }
  }

  function JobRows(resumes: seq<Resume>): (rows: seq<Row>)
    ensures |rows| == |resumes|
    ensures forall i | 0 <= i < |rows| :: rows[i] == Row(resumes[i].candidate, Some(JobListing(resumes[i])))
  {
    if resumes == [] then []
    else
      var n := |resumes| - 1;
      JobRows(resumes[..n]) + [Row(resumes[n].candidate, Some(JobListing(resumes[n])))]
  }

  /** The counter holds the occurrences of the dashboard rows. */
  ghost predicate Counted(counts: map<Listing, nat>, rows: seq<Row>) {
    forall l :: CountIn(counts, l) == Occurrences(rows, l)
  }

  lemma CountedStep(counts: map<Listing, nat>, rows: seq<Row>, candidate: nat, l: Listing)
    requires Counted(counts, rows)
    ensures Counted(counts[l := CountIn(counts, l) + 1], rows + [Row(candidate, Some(l))])
  {
    var row, counts' := Row(candidate, Some(l)), counts[l := CountIn(counts, l) + 1];
    var rows' := rows + [row];
    forall k ensures CountIn(counts', k) == Occurrences(rows', k) {
      OccurrencesStep(rows, row, k);
      assert CountIn(counts, k) == Occurrences(rows, k);
    }
  }

  lemma JobRowsStep(resumes: seq<Resume>, i: nat)
    requires i < |resumes|
    ensures JobRows(resumes[..i + 1]) == JobRows(resumes[..i]) + [Row(resumes[i].candidate, Some(JobListing(resumes[i])))]
  {
    TakeNext(resumes, i);
  }

  /** The ranking of jobs. */
  method JobRanking(resumes: seq<Resume>) returns (counts: map<Listing, nat>)
    ensures Counted(counts, JobRows(resumes))
  {
    counts := map[];
    for i := 0 to |resumes|
      invariant Counted(counts, JobRows(resumes[..i]))
    {
      JobRowsStep(resumes, i);
      var title := FirstTitle(resumes[i].titles);
      var l := Listing(if resumes[i].job.None? then Text(title) else Id(resumes[i].job.value), title);
      CountedStep(counts, JobRows(resumes[..i]), resumes[i].candidate, l);
      counts := counts[l := CountIn(counts, l) + 1];
    }
    assert resumes[..|resumes|] == resumes;
  }

  /** Drilling down on jobs. */
  method DrillJobs(resumes: seq<Resume>, pairs: seq<Pair>) returns (matched: seq<nat>)
    ensures Matched(matched, JobRows(resumes), pairs)
  {
    matched := [];
    for i := 0 to |resumes|
      invariant Matched(matched, JobRows(resumes[..i]), pairs)
    {
      JobRowsStep(resumes, i);
      var title := FirstTitle(resumes[i].titles);
      var key := if resumes[i].job.Some? then Digits(resumes[i].job.value) else "text:" + title;
      MatchedStep(matched, JobRows(resumes[..i]), Row(resumes[i].candidate, Some(JobListing(resumes[i]))), pairs);
      if RowMatches(pairs, key, title) {
        matched := matched + [resumes[i].candidate];
      }
    }
    assert resumes[..|resumes|] == resumes;
  }

  /** The resumes with one of some ids. */
  function WithIds(rows: seq<Resume>, ids: set<nat>): (r: seq<Resume>)
    ensures forall x :: x in r <==> x in rows && x.id in ids
  {
    if rows == [] then []
    else
      var n := |rows| - 1;
      assert forall x | x in rows :: x in rows[..n] || x == rows[n];
      WithIds(rows[..n], ids) + if rows[n].id in ids then [rows[n]] else []
  }

  ghost predicate DifferentIds(rows: seq<Resume>) {
    forall i, j | 0 <= i < j < |rows| :: rows[i].id != rows[j].id
  }

  lemma {:induction false} WithIdsStayDifferent(rows: seq<Resume>, ids: set<nat>)
    requires DifferentIds(rows)
    ensures DifferentIds(WithIds(rows, ids))
  {
    if rows != [] {
      var n := |rows| - 1;
      WithIdsStayDifferent(rows[..n], ids);
      assert forall x | x in WithIds(rows[..n], ids) :: x in rows[..n];
    }
  }

  /** The effective resumes of the candidates in scope. */
  function EffectiveIdsIn(db: Db, f: Filters): set<nat> {
    set c | c in CandidatesOf(Scoped(db, f)) && Effective(db, f, c).Some? :: Effective(db, f, c).value
  }

  /** The ids that the second computation collects are these. */
  lemma CollectedIdsAreEffective(db: Db, f: Filters, candidates: seq<nat>, sorted: seq<Resume>, ids: seq<Option<nat>>, id: nat)
    requires UniqueIds(db.resumes) && forall x :: x in sorted <==> x in Scoped(db, f)
    requires forall c :: c in candidates <==> c in CandidatesOf(Scoped(db, f))
    requires |ids| == |candidates| && forall i | 0 <= i < |ids| :: ids[i] == OwnOrFirst(db.currents, sorted, candidates[i])
    ensures Some(id) in ids <==> id in EffectiveIdsIn(db, f)
  {
    if Some(id) in ids {
      var i :| 0 <= i < |ids| && ids[i] == Some(id);
      assert candidates[i] in candidates;
      EffectiveResumesAgree(db, f, sorted, candidates[i]);
    }
    if id in EffectiveIdsIn(db, f) {
      var c :| c in CandidatesOf(Scoped(db, f)) && Effective(db, f, c) == Some(id);
      assert c in candidates;
      var i :| 0 <= i < |candidates| && candidates[i] == c;
      EffectiveResumesAgree(db, f, sorted, c);
    }
  }

  /** Every candidate in scope has at most one effective resume. */
  lemma EffectiveResumesDiffer(db: Db, f: Filters, l: Listing)
    requires Owned(db) && DifferentIds(db.resumes)
    ensures OncePerCandidate(JobRows(WithIds(db.resumes, EffectiveIdsIn(db, f))), l)
  {
    var resumes := WithIds(db.resumes, EffectiveIdsIn(db, f));
    WithIdsStayDifferent(db.resumes, EffectiveIdsIn(db, f));
    forall i, j | 0 <= i < j < |resumes| ensures resumes[i].candidate != resumes[j].candidate {
      OwnerOfEffective(db, f, resumes[i]);
      OwnerOfEffective(db, f, resumes[j]);
    }
  }

  lemma OwnerOfEffective(db: Db, f: Filters, r: Resume)
    requires Owned(db) && r in WithIds(db.resumes, EffectiveIdsIn(db, f))
    ensures Effective(db, f, r.candidate) == Some(r.id)
  {
    var c :| c in CandidatesOf(Scoped(db, f)) && Effective(db, f, c) == Some(r.id);
    var own := EffectiveIsOwn(db, f, c);
    assert own == r;
  }

  lemma JobRowsAreListed(resumes: seq<Resume>)
    ensures AllListings(JobRows(resumes), false)
  {
    forall i | 0 <= i < |resumes| ensures IsListing(JobListing(resumes[i]), false) {
      TitleIsNotEmpty(resumes[i].titles);
    }
  }

  lemma CounterCountsDrilldown(rows: seq<Row>, l: Listing)
    requires AllListings(rows, false) && OncePerCandidate(rows, l) && Occurrences(rows, l) > 0
    ensures Occurrences(rows, l) == |Found(rows, [PairFor(l)])|
  {
    OccurrencesAreCandidatesIff(rows, l);
    ListedHasListing(rows, l, false);
    DrilldownFindsRow(rows, l, false);
  }

  /** For every job that the dashboard lists, the row counts exactly the candidates that drilling down on it
      finds. */
  lemma JobRowsDrillDown(db: Db, f: Filters, l: Listing)
    requires Owned(db) && DifferentIds(db.resumes)
    ensures var rows := JobRows(WithIds(db.resumes, EffectiveIdsIn(db, f)));
      Occurrences(rows, l) > 0 ==> Occurrences(rows, l) == |Found(rows, [PairFor(l)])|
  {
    var resumes := WithIds(db.resumes, EffectiveIdsIn(db, f));
    if Occurrences(JobRows(resumes), l) > 0 {
      EffectiveResumesDiffer(db, f, l);
      JobRowsAreListed(resumes);
      CounterCountsDrilldown(JobRows(resumes), l);
    }
  }

  /** The tags of a candidate: its own, or without any those of its highest and first degree, each once. */
  function TagsOf(c: Candidate): seq<Tag> {
    if c.tags != [] then c.tags
    else if c.highest.Some? && c.first.Some? then
      if c.highest.value.id == c.first.value.id then [c.first.value] else [c.highest.value, c.first.value]
    else if c.highest.Some? then [c.highest.value]
    else if c.first.Some? then [c.first.value]
    else []
  }

  /** A candidate without tags is listed under its two degrees; of two with one id, the first degree is kept. */
  lemma TagsOfIff(c: Candidate, tag: Tag)
    ensures tag in TagsOf(c) <==>
      || tag in c.tags
      || (c.tags == [] && c.first == Some(tag))
      || (c.tags == [] && c.highest == Some(tag) && (c.first.Some? ==> c.first.value.id != tag.id))
    ensures c.tags == [] ==> forall i, j | 0 <= i < j < |TagsOf(c)| :: TagsOf(c)[i].id != TagsOf(c)[j].id
    ensures c.tags != [] ==> |TagsOf(c)| == |c.tags|
  {
  }

  /** The tag filter selects a candidate exactly if the ranking lists it under that tag, unless the tag is the first degree
      of a candidate without own tags whose highest degree is another one: the filter misses those. */
  lemma TagFilterAgreesIff(c: Candidate, id: nat)
    ensures (TagMatches(c, id) <==> HasTagId(TagsOf(c), id)) <==>
      !(c.tags == [] && c.first.Some? && c.first.value.id == id && c.highest.Some? && c.highest.value.id != id)
    ensures TagMatches(c, id) ==> HasTagId(TagsOf(c), id)
  {
    if c.tags == [] {
      var tags := TagsOf(c);
      assert forall i | 0 <= i < |tags| :: tags[i].id == id ==> HasTagId(tags, id);
      if c.first.Some? {
        assert tags[|tags| - 1] == c.first.value;
      }
      if c.highest.Some? {
        assert tags[0].id == c.highest.value.id;
      }
    }
  }

  function TagListing(tag: Tag): Listing {
    Listing(Id(tag.id), tag.name)
  }

  function RowsOfTags(candidate: nat, tags: seq<Tag>): (rows: seq<Row>)
    ensures |rows| == |tags| && forall i | 0 <= i < |rows| :: rows[i] == Row(candidate, Some(TagListing(tags[i])))
  {
    if tags == [] then []
    else RowsOfTags(candidate, tags[..|tags| - 1]) + [Row(candidate, Some(TagListing(tags[|tags| - 1])))]
  }

  /** One occurrence per tag of every candidate. */
  function TagRows(candidates: seq<Candidate>): seq<Row> {
    if candidates == [] then []
    else
      var n := |candidates| - 1;
      TagRows(candidates[..n]) + RowsOfTags(candidates[n].id, TagsOf(candidates[n]))
  }

  /** Every occurrence comes from a candidate with the tag. */
  lemma {:induction false} TagRowSource(candidates: seq<Candidate>, i: nat) returns (c: Candidate)
    requires i < |TagRows(candidates)|
    ensures c in candidates && TagRows(candidates)[i].candidate == c.id && ListsTag(c, TagRows(candidates)[i])
  {
    var n := |candidates| - 1;
    if i < |TagRows(candidates[..n])| {
      c := TagRowSource(candidates[..n], i);
      assert c in candidates[..n];
    } else {
      c := candidates[n];
      assert TagRows(candidates)[i].listing == Some(TagListing(TagsOf(c)[i - |TagRows(candidates[..n])|]));
    }
  }

  predicate ListsTag(c: Candidate, row: Row) {
    exists k | 0 <= k < |TagsOf(c)| :: row.listing == Some(TagListing(TagsOf(c)[k]))
  }

  ghost predicate DifferentCandidates(candidates: seq<Candidate>) {
    forall i, j | 0 <= i < j < |candidates| :: candidates[i].id != candidates[j].id
  }

  /** Candidates and the tags of a candidate are distinct, and tags have names. */
  ghost predicate CleanTags(candidates: seq<Candidate>) {
    DifferentCandidates(candidates) && forall c | c in candidates :: DistinctTags(TagsOf(c))
  }

  ghost predicate DistinctTags(tags: seq<Tag>) {
    && (forall i, j | 0 <= i < j < |tags| :: tags[i].id != tags[j].id)
    && (forall i | 0 <= i < |tags| :: tags[i].name != "")
  }

  lemma TagsOnce(candidate: nat, tags: seq<Tag>, l: Listing)
    requires DistinctTags(tags)
    ensures OncePerCandidate(RowsOfTags(candidate, tags), l)
  {
    forall i, j | 0 <= i < j < |tags| ensures TagListing(tags[i]) != TagListing(tags[j]) {
    }
  }

  lemma RowsNameCandidates(candidates: seq<Candidate>, other: nat)
    requires forall k | 0 <= k < |candidates| :: candidates[k].id != other
    ensures forall i | 0 <= i < |TagRows(candidates)| :: TagRows(candidates)[i].candidate != other
  {
    forall i | 0 <= i < |TagRows(candidates)| ensures TagRows(candidates)[i].candidate != other {
      var c := TagRowSource(candidates, i);
    }
  }

  lemma {:induction false} TagRowsOnce(candidates: seq<Candidate>, l: Listing)
    requires CleanTags(candidates)
    ensures OncePerCandidate(TagRows(candidates), l)
  {
    if candidates != [] {
      var n := |candidates| - 1;
      FewerStayClean(candidates, n);
      TagRowsOnce(candidates[..n], l);
      OnceWithCandidate(candidates[..n], candidates[n], l);
    }
  }

  lemma {:induction false} OnceWithCandidate(candidates: seq<Candidate>, c: Candidate, l: Listing)
    requires OncePerCandidate(TagRows(candidates), l) && DistinctTags(TagsOf(c))
    requires forall k | 0 <= k < |candidates| :: candidates[k].id != c.id
    ensures OncePerCandidate(TagRows(candidates) + RowsOfTags(c.id, TagsOf(c)), l)
  {
    TagsOnce(c.id, TagsOf(c), l);
    RowsNameCandidates(candidates, c.id);
    OnceInBoth(TagRows(candidates), RowsOfTags(c.id, TagsOf(c)), c.id, l);
  }

  lemma FewerStayClean(candidates: seq<Candidate>, n: nat)
    requires CleanTags(candidates) && n < |candidates|
    ensures CleanTags(candidates[..n]) && DistinctTags(TagsOf(candidates[n]))
    ensures forall k | 0 <= k < n :: candidates[..n][k].id != candidates[n].id
  {
    assert candidates[n] in candidates;
    assert forall c | c in candidates[..n] :: c in candidates;
  }

  lemma OnceInBoth(before: seq<Row>, last: seq<Row>, candidate: nat, l: Listing)
    requires OncePerCandidate(before, l) && OncePerCandidate(last, l)
    requires forall i | 0 <= i < |before| :: before[i].candidate != candidate
    requires forall i | 0 <= i < |last| :: last[i].candidate == candidate
    ensures OncePerCandidate(before + last, l)
  {
  }

  lemma TagRowsAreListed(candidates: seq<Candidate>)
    requires CleanTags(candidates)
    ensures AllListings(TagRows(candidates), false)
  {
    var rows := TagRows(candidates);
    forall i | 0 <= i < |rows| && rows[i].listing.Some? ensures IsListing(rows[i].listing.value, false) {
      var c := TagRowSource(candidates, i);
      assert DistinctTags(TagsOf(c));
    }
  }

  const UNTAGGED := "未填写"

  /** The dashboard row of candidates without tags. */
  function Untagged(): Listing {
    Listing(Text(UNTAGGED), UNTAGGED)
  }

  /** What the ranking of school tags counts for a candidate. */
  function RankedRowsOf(c: Candidate): seq<Row> {
    if TagsOf(c) == [] then [Row(c.id, Some(Untagged()))] else RowsOfTags(c.id, TagsOf(c))
  }

  function RankedTagRows(candidates: seq<Candidate>): seq<Row> {
    if candidates == [] then []
    else
      var n := |candidates| - 1;
      RankedTagRows(candidates[..n]) + RankedRowsOf(candidates[n])
  }

  lemma TagStep(before: seq<Row>, id: nat, tags: seq<Tag>, k: nat)
    requires k < |tags|
    ensures before + RowsOfTags(id, tags[..k + 1]) == before + RowsOfTags(id, tags[..k]) + [Row(id, Some(TagListing(tags[k])))]
  {
    TakeNext(tags, k);
  }

  /** Counts the tags of one candidate. */
  method CountTags(ghost before: seq<Row>, counts: map<Listing, nat>, id: nat, tags: seq<Tag>) returns (counts': map<Listing, nat>)
    requires Counted(counts, before)
    ensures Counted(counts', before + RowsOfTags(id, tags))
  {
    counts' := counts;
    assert before + RowsOfTags(id, tags[..0]) == before;
    for k := 0 to |tags|
      invariant Counted(counts', before + RowsOfTags(id, tags[..k]))
    {
      var l := Listing(Id(tags[k].id), tags[k].name);
      TagStep(before, id, tags, k);
      CountedStep(counts', before + RowsOfTags(id, tags[..k]), id, l);
      counts' := counts'[l := CountIn(counts', l) + 1];
    }
    assert tags[..|tags|] == tags;
  }

  /** The ranking of school tags. */
  method TagRanking(candidates: seq<Candidate>) returns (counts: map<Listing, nat>)
    ensures Counted(counts, RankedTagRows(candidates))
  {
    counts := map[];
    for i := 0 to |candidates|
      invariant Counted(counts, RankedTagRows(candidates[..i]))
    {
      TakeNext(candidates, i);
      var id, tags := candidates[i].id, TagsOf(candidates[i]);
      ghost var before := RankedTagRows(candidates[..i]);
      if |tags| == 0 {
        CountedStep(counts, before, id, Untagged());
        counts := counts[Untagged() := CountIn(counts, Untagged()) + 1];
      } else {
        counts := CountTags(before, counts, id, tags);
      }
    }
    assert candidates[..|candidates|] == candidates;
  }

  predicate HasMatch(tags: seq<Tag>, pairs: seq<Pair>) {
    exists k | 0 <= k < |tags| :: MatchesTag(pairs, tags[k])
  }

  predicate MatchesTag(pairs: seq<Pair>, tag: Tag) {
    RowMatches(pairs, Digits(tag.id), tag.name)
  }

  lemma HasMatchStep(tags: seq<Tag>, pairs: seq<Pair>)
    requires tags != []
    ensures HasMatch(tags, pairs) <==> HasMatch(tags[..|tags| - 1], pairs) || MatchesTag(pairs, tags[|tags| - 1])
  {
    var n := |tags| - 1;
    if k :| 0 <= k < |tags| && MatchesTag(pairs, tags[k]) {
      assert k < n ==> MatchesTag(pairs, tags[..n][k]);
    }
    if k :| 0 <= k < n && MatchesTag(pairs, tags[..n][k]) {
      assert MatchesTag(pairs, tags[k]);
    }
  }

  lemma {:induction false} FoundOfTags(before: seq<Row>, id: nat, tags: seq<Tag>, pairs: seq<Pair>)
    ensures Found(before + RowsOfTags(id, tags), pairs) == Found(before, pairs) + if HasMatch(tags, pairs) then {id} else {}
  {
    if tags == [] {
      assert before + RowsOfTags(id, tags) == before;
    } else {
      var n := |tags| - 1;
      var rows, row := before + RowsOfTags(id, tags[..n]), Row(id, Some(TagListing(tags[n])));
      FoundOfTags(before, id, tags[..n], pairs);
      HasMatchStep(tags, pairs);
      assert before + RowsOfTags(id, tags) == rows + [row];
      FoundStep(rows, row, pairs);
      assert Matches(pairs, row) <==> MatchesTag(pairs, tags[n]);
    }
  }

  lemma MatchedTags(matched: seq<nat>, candidates: seq<Candidate>, i: nat, pairs: seq<Pair>)
    requires i < |candidates| && Matched(matched, TagRows(candidates[..i]), pairs)
    ensures Matched(if HasMatch(TagsOf(candidates[i]), pairs) then matched + [candidates[i].id] else matched,
                    TagRows(candidates[..i + 1]), pairs)
  {
    TakeNext(candidates, i);
    FoundOfTags(TagRows(candidates[..i]), candidates[i].id, TagsOf(candidates[i]), pairs);
  }

  /** A candidate is found if one of its tags has the id of a pair, and its name unless that is empty. */
  lemma {:induction false} TagsFoundIff(candidates: seq<Candidate>, pairs: seq<Pair>, id: nat)
    ensures id in Found(TagRows(candidates), pairs) <==> exists c :: c in candidates && IsTagged(c, id, pairs)
  {
    if candidates != [] {
      var n := |candidates| - 1;
      TagsFoundIff(candidates[..n], pairs, id);
      FoundOfTags(TagRows(candidates[..n]), candidates[n].id, TagsOf(candidates[n]), pairs);
      HasMatchIff(TagsOf(candidates[n]), pairs);
      TaggedNext(candidates, pairs, id);
    }
  }

  ghost predicate IsTagged(c: Candidate, id: nat, pairs: seq<Pair>) {
    c.id == id && AnswersTag(TagsOf(c), pairs)
  }

  lemma TaggedNext(candidates: seq<Candidate>, pairs: seq<Pair>, id: nat)
    requires candidates != []
    ensures var n := |candidates| - 1;
      (exists c :: c in candidates && IsTagged(c, id, pairs)) <==>
        (exists c :: c in candidates[..n] && IsTagged(c, id, pairs)) || IsTagged(candidates[n], id, pairs)
  {
    var n := |candidates| - 1;
    assert candidates[n] in candidates;
    assert forall c | c in candidates :: c in candidates[..n] || c == candidates[n];
  }

  ghost predicate AnswersTag(tags: seq<Tag>, pairs: seq<Pair>) {
    exists k, p :: 0 <= k < |tags| && 0 <= p < |pairs| && IsAsked(tags[k], pairs[p])
  }

  ghost predicate IsAsked(tag: Tag, pair: Pair) {
    pair.key == Digits(tag.id) && (pair.name != "" ==> pair.name == tag.name)
  }

  lemma HasMatchIff(tags: seq<Tag>, pairs: seq<Pair>)
    ensures HasMatch(tags, pairs) <==> AnswersTag(tags, pairs)
  {
    if k :| 0 <= k < |tags| && MatchesTag(pairs, tags[k]) {
      var p :| 0 <= p < |pairs| && Digits(tags[k].id) == pairs[p].key && (pairs[p].name == "" || tags[k].name == pairs[p].name);
      assert IsAsked(tags[k], pairs[p]);
    }
    if k, p :| 0 <= k < |tags| && 0 <= p < |pairs| && IsAsked(tags[k], pairs[p]) {
      assert MatchesTag(pairs, tags[k]);
    }
  }

  /** Drilling down on school tags. */
  method DrillTags(candidates: seq<Candidate>, pairs: seq<Pair>) returns (matched: seq<nat>)
    ensures Matched(matched, TagRows(candidates), pairs)
  {
    matched := [];
    for i := 0 to |candidates|
      invariant Matched(matched, TagRows(candidates[..i]), pairs)
    {
      MatchedTags(matched, candidates, i, pairs);
      if HasMatch(TagsOf(candidates[i]), pairs) {
        matched := matched + [candidates[i].id];
      }
    }
    assert candidates[..|candidates|] == candidates;
  }

  lemma {:induction false} OccurrencesConcat(a: seq<Row>, b: seq<Row>, l: Listing)
    ensures Occurrences(a + b, l) == Occurrences(a, l) + Occurrences(b, l)
  {
    if b == [] {
      assert a + b == a;
    } else {
      var n := |b| - 1;
      assert a + b == (a + b[..n]) + [b[n]];
      OccurrencesStep(a + b[..n], b[n], l);
      OccurrencesConcat(a, b[..n], l);
    }
  }

  /** Except for the row of candidates without tags, the ranking counts the occurrences of tags. */
  lemma {:induction false} RankedTagsAreTags(candidates: seq<Candidate>, l: Listing)
    requires l != Untagged()
    ensures Occurrences(RankedTagRows(candidates), l) == Occurrences(TagRows(candidates), l)
  {
    if candidates != [] {
      var n := |candidates| - 1;
      var c := candidates[n];
      RankedTagsAreTags(candidates[..n], l);
      OccurrencesConcat(RankedTagRows(candidates[..n]), RankedRowsOf(c), l);
      OccurrencesConcat(TagRows(candidates[..n]), RowsOfTags(c.id, TagsOf(c)), l);
    }
  }

  function HasNoTags(): Candidate -> bool {
    (c: Candidate) => c.tags == [] && c.highest == None && c.first == None
  }

  /** The row of candidates without tags counts the candidates with no tag of any kind. */
  lemma UntaggedAreCounted(candidates: seq<Candidate>)
    ensures Occurrences(RankedTagRows(candidates), Listing(Text("未填写"), "未填写")) == |PositionsWhere(candidates, HasNoTags())|
  {
    UntaggedCount(candidates);
    CountWhereIsSize(candidates, HasNoTags());
  }

  lemma {:induction false} UntaggedCount(candidates: seq<Candidate>)
    ensures Occurrences(RankedTagRows(candidates), Listing(Text("未填写"), "未填写")) == CountWhere(candidates, HasNoTags())
  {
    if candidates != [] {
      var n := |candidates| - 1;
      UntaggedCount(candidates[..n]);
      OccurrencesConcat(RankedTagRows(candidates[..n]), RankedRowsOf(candidates[n]), Listing(Text("未填写"), "未填写"));
      NotUntagged(candidates[n]);
    }
  }

  lemma NotUntagged(c: Candidate)
    ensures Occurrences(RankedRowsOf(c), Listing(Text("未填写"), "未填写")) == if HasNoTags()(c) then 1 else 0
  {
    if TagsOf(c) != [] {
      TagsAreNoTexts(c.id, TagsOf(c), Listing(Text("未填写"), "未填写"));
    }
  }

  lemma {:induction false} TagsAreNoTexts(id: nat, tags: seq<Tag>, l: Listing)
    requires l.key.Text?
    ensures Occurrences(RowsOfTags(id, tags), l) == 0
  {
    if tags != [] {
      TagsAreNoTexts(id, tags[..|tags| - 1], l);
    }
  }

  lemma {:induction false} NobodyIsUntagged(rows: seq<Row>, candidates: seq<Candidate>)
    requires rows == TagRows(candidates)
    ensures Found(rows, [PairFor(Untagged())]) == {}
  {
    var pairs := [PairFor(Untagged())];
    if c :| c in Found(rows, pairs) {
      var i := FoundSource(rows, pairs, c);
      var source := TagRowSource(candidates, i);
      var k :| 0 <= k < |TagsOf(source)| && rows[i].listing == Some(TagListing(TagsOf(source)[k]));
      TextIsNoNumber(TagsOf(source)[k].id, UNTAGGED);
    }
  }

  lemma {:induction false} FoundSource(rows: seq<Row>, pairs: seq<Pair>, c: nat) returns (i: nat)
    requires c in Found(rows, pairs)
    ensures i < |rows| && Matches(pairs, rows[i])
  {
    i := |rows| - 1;
    if c in Found(rows[..i], pairs) {
      i := FoundSource(rows[..i], pairs, c);
    }
  }

  /** For every school tag that the dashboard lists, the row counts exactly the candidates that drilling down on it
      finds.  The row of candidates without tags is the exception: drilling down on it finds nobody. */
  lemma TagRowsDrillDown(candidates: seq<Candidate>, l: Listing)
    requires CleanTags(candidates) && Occurrences(RankedTagRows(candidates), l) > 0
    ensures Occurrences(RankedTagRows(candidates), l) == |Found(TagRows(candidates), [PairFor(l)])| <==> l != Untagged()
    ensures l == Untagged() ==> Found(TagRows(candidates), [PairFor(l)]) == {}
  {
    if l == Untagged() {
      NobodyIsUntagged(TagRows(candidates), candidates);
    } else {
      RankedTagsAreTags(candidates, l);
      TagRowsAreListed(candidates);
      TagRowsOnce(candidates, l);
      CounterCountsDrilldown(TagRows(candidates), l);
    }
  }

  // ----- All rankings of a dashboard -----

  datatype Ranking = OfAttempts(dimension: Dimension) | OfJobs | OfTags

  /** The current attempt of some candidate in scope. */
  ghost predicate IsCurrentAttempt(db: Db, f: Filters, a: Attempt) {
    exists c :: c in CandidatesOf(Scoped(db, f)) && CurrentAttempt(db, f, c) == Some(a)
  }

  /** The current attempts of the candidates in scope. */
  ghost function CurrentAttempts(db: Db, f: Filters, attempts: seq<Attempt>): (r: seq<Attempt>)
    ensures forall a :: a in r <==> a in attempts && IsCurrentAttempt(db, f, a)
  {
    if attempts == [] then []
    else
      var n := |attempts| - 1;
      assert forall a | a in attempts :: a in attempts[..n] || a == attempts[n];
      CurrentAttempts(db, f, attempts[..n]) + if IsCurrentAttempt(db, f, attempts[n]) then [attempts[n]] else []
  }

  function Among(candidates: seq<Candidate>, ids: set<nat>): (r: seq<Candidate>)
    ensures forall c :: c in r <==> c in candidates && c.id in ids
  {
    if candidates == [] then []
    else
      var n := |candidates| - 1;
      assert forall c | c in candidates :: c in candidates[..n] || c == candidates[n];
      Among(candidates[..n], ids) + if candidates[n].id in ids then [candidates[n]] else []
  }

  lemma {:induction false} AmongStayDifferent(candidates: seq<Candidate>, ids: set<nat>)
    requires DifferentCandidates(candidates)
    ensures DifferentCandidates(Among(candidates, ids))
  {
    if candidates != [] {
      var n := |candidates| - 1;
      AmongStayDifferent(candidates[..n], ids);
      assert forall c | c in Among(candidates[..n], ids) :: c in candidates[..n];
    }
  }

  lemma AmongStaysClean(candidates: seq<Candidate>, ids: set<nat>)
    requires CleanTags(candidates)
    ensures CleanTags(Among(candidates, ids))
  {
    AmongStayDifferent(candidates, ids);
  }

  /** The count that the dashboard shows in a row of a ranking. */
  ghost function RankedCount(db: Db, f: Filters, ranking: Ranking, l: Listing): nat {
    match ranking
    case OfAttempts(dimension) => |Listed(AttemptRows(db.depts, dimension, CurrentAttempts(db, f, db.attempts)), l)|
    case OfJobs => Occurrences(JobRows(WithIds(db.resumes, EffectiveIdsIn(db, f))), l)
    case OfTags => Occurrences(RankedTagRows(Among(db.candidates, CandidatesOf(Scoped(db, f)))), l)
  }

  /** The candidates that a request for rows of a ranking finds. */
  ghost function DrilledDown(db: Db, f: Filters, ranking: Ranking, pairs: seq<Pair>): set<nat> {
    match ranking
    case OfAttempts(dimension) => Found(AttemptRows(db.depts, dimension, CurrentAttempts(db, f, db.attempts)), pairs)
    case OfJobs => Found(JobRows(WithIds(db.resumes, EffectiveIdsIn(db, f))), pairs)
    case OfTags => Found(TagRows(Among(db.candidates, CandidatesOf(Scoped(db, f)))), pairs)
  }

  /** For every row of every ranking, under any filters, the dashboard counts exactly the candidates that drilling
      down on the row finds under the same filters; the row of candidates without tags is the only exception. */
  lemma RankingsDrillDown(db: Db, f: Filters, ranking: Ranking, l: Listing)
    requires Owned(db) && DifferentIds(db.resumes) && CleanTags(db.candidates) && RankedCount(db, f, ranking, l) > 0
    ensures RankedCount(db, f, ranking, l) == |DrilledDown(db, f, ranking, [PairFor(l)])|
      <==> !(ranking.OfTags? && l == Untagged())
  {
    match ranking
    case OfAttempts(dimension) => AttemptRowsDrillDown(db.depts, dimension, CurrentAttempts(db, f, db.attempts), l);
    case OfJobs => JobRowsDrillDown(db, f, l);
    case OfTags =>
      AmongStaysClean(db.candidates, CandidatesOf(Scoped(db, f)));
      TagRowsDrillDown(Among(db.candidates, CandidatesOf(Scoped(db, f))), l);
  }

  // ----- The stages nest -----

  datatype Stage = Allocated | Dispatched | Feedback | Passed

  predicate Reached(stage: Stage, a: Attempt) {
    match stage
    case Allocated => true
    case Dispatched => a.status.Dispatched? || a.status.Passed? || a.status.Rejected?
    case Feedback => a.status.Passed? || a.status.Rejected?
    case Passed => a.status.Passed?
  }

  /** The candidates that reached a stage: what the summary counts and what drilling down finds. */
  function AtStage(attempts: seq<Attempt>, stage: Stage): set<nat> {
    set a | a in attempts && Reached(stage, a) :: a.candidate
  }

  ghost predicate HasAttempt(attempts: seq<Attempt>, c: nat, statuses: set<CandidateStatus.AttemptStatus>) {
    exists a :: a in attempts && a.candidate == c && a.status in statuses
  }

  /** Every attempt is allocated; feedback is a result, and what was dispatched or has a result was dispatched. */
  lemma AtStageIff(attempts: seq<Attempt>, c: nat)
    ensures c in AtStage(attempts, Allocated) <==> exists a :: a in attempts && a.candidate == c
    ensures c in AtStage(attempts, Dispatched) <==>
      HasAttempt(attempts, c, {CandidateStatus.Dispatched, CandidateStatus.Passed, CandidateStatus.Rejected})
    ensures c in AtStage(attempts, Feedback) <==> HasAttempt(attempts, c, {CandidateStatus.Passed, CandidateStatus.Rejected})
    ensures c in AtStage(attempts, Passed) <==> HasAttempt(attempts, c, {CandidateStatus.Passed})
  {
  }

  /** Passed within feedback within dispatched within allocated within the candidates in scope. */
  lemma StagesNest(db: Db, f: Filters)
    requires Owned(db)
    ensures var attempts := CurrentAttempts(db, f, db.attempts);
      AtStage(attempts, Passed) <= AtStage(attempts, Feedback) <= AtStage(attempts, Dispatched)
      <= AtStage(attempts, Allocated) <= CandidatesOf(Scoped(db, f))
  {
    var attempts := CurrentAttempts(db, f, db.attempts);
    forall a | a in attempts ensures a.candidate in CandidatesOf(Scoped(db, f)) {
      assert IsCurrentAttempt(db, f, a);
      var c :| c in CandidatesOf(Scoped(db, f)) && CurrentAttempt(db, f, c) == Some(a);
      AttemptIsOwn(db, f, c);
    }
  }
}
