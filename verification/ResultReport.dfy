/** The result report: one row of counts per receiving department, and their total. */
module ResultReport {
  import opened Wrappers
  import opened Departments
  import opened CandidateStatus

  datatype Group = Group(primary: string, secondary: string)

  /** One resume of the report. */
  datatype Entry = Entry(group: Group, status: Status, attempt: Option<Attempt>)

  /** A column of the report; Placed counts the resumes with an attempt. */
  datatype Column = Imported | Placed | Showing(status: Status)

  /** A row of the report; a column that is not set is 0. */
  type Bucket = map<Column, nat>

  function Cell(b: Bucket, c: Column): nat {
    if c in b then b[c] else 0
  }

  function Bump(b: Bucket, c: Column): Bucket {
    b[c := Cell(b, c) + 1]
  }

  /** Counts one entry in a row. */
  function Count(b: Bucket, e: Entry): Bucket {
    var counted := Bump(Bump(b, Imported), Showing(e.status));
    if e.attempt.Some? then Bump(counted, Placed) else counted
  }

  function One(b: bool): nat {
    if b then 1 else 0
  }

  /** What an entry adds to a column. */
  function Adds(e: Entry, c: Column): nat {
    match c
    case Imported => 1
    case Placed => One(e.attempt.Some?)
    case Showing(s) => One(s == e.status)
  }

  lemma CountAdds(b: Bucket, e: Entry, c: Column)
    ensures Cell(Count(b, e), c) == Cell(b, c) + Adds(e, c)
  {
  }

  // ----- Sums over the keys of a table -----

  function Sum<K>(keys: seq<K>, f: K -> nat): nat {
    if keys == [] then 0 else Sum(keys[..|keys| - 1], f) + f(keys[|keys| - 1])
  }

  lemma {:induction false} SumOfSame<K>(keys: seq<K>, f: K -> nat, f': K -> nat)
    requires forall i | 0 <= i < |keys| :: f'(keys[i]) == f(keys[i])
    ensures Sum(keys, f') == Sum(keys, f)
  {
    if keys != [] {
      SumOfSame(keys[..|keys| - 1], f, f');
    }
  }

  /** Adding to the value of one key adds to the sum. */
  lemma {:induction false} SumGrows<K>(keys: seq<K>, f: K -> nat, f': K -> nat, i: nat, more: nat)
    requires i < |keys| && f'(keys[i]) == f(keys[i]) + more
    requires forall k | 0 <= k < |keys| && k != i :: f'(keys[k]) == f(keys[k])
    ensures Sum(keys, f') == Sum(keys, f) + more
  {
    var n := |keys| - 1;
    if i == n {
      SumOfSame(keys[..n], f, f');
    } else {
      SumGrows(keys[..n], f, f', i, more);
    }
  }

  /** Adding a key adds its value. */
  lemma SumExtends<K>(keys: seq<K>, f: K -> nat, f': K -> nat, key: K)
    requires forall i | 0 <= i < |keys| :: f'(keys[i]) == f(keys[i])
    ensures Sum(keys + [key], f') == Sum(keys, f) + f'(key)
  {
    SumOfSame(keys, f, f');
    assert (keys + [key])[..|keys|] == keys;
  }

  // ----- Rows -----

  /** The row of a group, empty if it has none yet. */
  function RowOf(rows: map<Group, Bucket>, g: Group): Bucket {
    if g in rows then rows[g] else map[]
  }

  function ColumnOf(rows: map<Group, Bucket>, c: Column): Group -> nat {
    (g: Group) => Cell(RowOf(rows, g), c)
  }

  /** How many entries of a group count in a column. */
  function GroupCount(entries: seq<Entry>, g: Group, c: Column): nat {
    if entries == [] then 0
    else
      var n := |entries| - 1;
      GroupCount(entries[..n], g, c) + if entries[n].group == g then Adds(entries[n], c) else 0
  }

  /** How many entries count in a column. */
  function AllCount(entries: seq<Entry>, c: Column): nat {
    if entries == [] then 0 else AllCount(entries[..|entries| - 1], c) + Adds(entries[|entries| - 1], c)
  }

  lemma CountNext(entries: seq<Entry>, i: nat, g: Group, c: Column)
    requires i < |entries|
    ensures GroupCount(entries[..i + 1], g, c) == GroupCount(entries[..i], g, c) + if entries[i].group == g then Adds(entries[i], c) else 0
    ensures AllCount(entries[..i + 1], c) == AllCount(entries[..i], c) + Adds(entries[i], c)
  {
    assert entries[..i + 1][..i] == entries[..i];
  }

  /** The total counts the entries, and is the sum of the rows. */
  ghost predicate TotalAgrees(entries: seq<Entry>, order: seq<Group>, rows: map<Group, Bucket>, total: Bucket, c: Column) {
    Cell(total, c) == AllCount(entries, c) == Sum(order, ColumnOf(rows, c))
  }

  /** The row of a group counts its entries. */
  ghost predicate RowAgrees(entries: seq<Entry>, rows: map<Group, Bucket>, g: Group, c: Column) {
    Cell(RowOf(rows, g), c) == GroupCount(entries, g, c)
  }

  /** The table has a non-empty row for every listed group, and for no other. */
  ghost predicate WellKept(order: seq<Group>, rows: map<Group, Bucket>) {
    Distinct(order) && (forall g :: g in order <==> g in rows) && forall g | g in rows :: Cell(rows[g], Imported) > 0
  }

  ghost predicate TotalsAgree(entries: seq<Entry>, order: seq<Group>, rows: map<Group, Bucket>, total: Bucket) {
    forall c: Column :: TotalAgrees(entries, order, rows, total, c)
  }

  ghost predicate RowsAgree(entries: seq<Entry>, rows: map<Group, Bucket>) {
    forall g: Group, c: Column :: RowAgrees(entries, rows, g, c)
  }

  /** The table has a row with the right counts for every group that occurs, and for no other. */
  ghost predicate CountsRows(entries: seq<Entry>, order: seq<Group>, rows: map<Group, Bucket>, total: Bucket) {
    WellKept(order, rows) && TotalsAgree(entries, order, rows, total) && RowsAgree(entries, rows)
  }

  lemma SumStep(order: seq<Group>, rows: map<Group, Bucket>, e: Entry, c: Column)
    requires WellKept(order, rows)
    ensures var rows' := rows[e.group := Count(RowOf(rows, e.group), e)];
      Sum(if e.group in rows then order else order + [e.group], ColumnOf(rows', c)) == Sum(order, ColumnOf(rows, c)) + Adds(e, c)
  {
    var f, f' := ColumnOf(rows, c), ColumnOf(rows[e.group := Count(RowOf(rows, e.group), e)], c);
    CountAdds(RowOf(rows, e.group), e, c);
    if e.group in rows {
      var i :| 0 <= i < |order| && order[i] == e.group;
      SumGrows(order, f, f', i, Adds(e, c));
    } else {
      assert forall i | 0 <= i < |order| :: order[i] in order;
      SumExtends(order, f, f', e.group);
    }
  }

  function Listing(order: seq<Group>, rows: map<Group, Bucket>, g: Group): seq<Group> {
    if g in rows then order else order + [g]
  }

  function Counted(rows: map<Group, Bucket>, e: Entry): map<Group, Bucket> {
    rows[e.group := Count(RowOf(rows, e.group), e)]
  }

  lemma StaysWellKept(order: seq<Group>, rows: map<Group, Bucket>, e: Entry)
    requires WellKept(order, rows)
    ensures WellKept(Listing(order, rows, e.group), Counted(rows, e))
  {
    CountAdds(RowOf(rows, e.group), e, Imported);
  }

  lemma TotalsStep(entries: seq<Entry>, i: nat, order: seq<Group>, rows: map<Group, Bucket>, total: Bucket)
    requires i < |entries| && WellKept(order, rows) && TotalsAgree(entries[..i], order, rows, total)
    ensures var e := entries[i];
      TotalsAgree(entries[..i + 1], Listing(order, rows, e.group), Counted(rows, e), Count(total, e))
  {
    var e, longer := entries[i], entries[..i + 1];
    forall c: Column ensures TotalAgrees(longer, Listing(order, rows, e.group), Counted(rows, e), Count(total, e), c) {
      assert TotalAgrees(entries[..i], order, rows, total, c);
      SumStep(order, rows, e, c);
      CountNext(entries, i, e.group, c);
      CountAdds(total, e, c);
    }
  }

  lemma RowsStep(entries: seq<Entry>, i: nat, rows: map<Group, Bucket>)
    requires i < |entries| && RowsAgree(entries[..i], rows)
    ensures RowsAgree(entries[..i + 1], Counted(rows, entries[i]))
  {
    var longer := entries[..i + 1];
    forall g: Group, c: Column ensures RowAgrees(longer, Counted(rows, entries[i]), g, c) {
      assert RowAgrees(entries[..i], rows, g, c);
      CountNext(entries, i, g, c);
      CountAdds(RowOf(rows, g), entries[i], c);
    }
  }

  /** Counts one entry in its row, which is created if need be, and in the total. */
  method CountEntry(ghost entries: seq<Entry>, ghost i: nat, order: seq<Group>, rows: map<Group, Bucket>, total: Bucket, e: Entry)
    returns (order': seq<Group>, rows': map<Group, Bucket>, total': Bucket)
    requires i < |entries| && entries[i] == e && CountsRows(entries[..i], order, rows, total)
    ensures CountsRows(entries[..i + 1], order', rows', total')
  {
    order' := if e.group in rows then order else order + [e.group];
    rows' := rows[e.group := Count(RowOf(rows, e.group), e)];
    total' := Count(total, e);
    StaysWellKept(order, rows, e);
    TotalsStep(entries, i, order, rows, total);
    RowsStep(entries, i, rows);
  }

  // ----- Rejection reasons -----

  datatype ReasonKey = ReasonKey(group: Group, code: string)

  predicate IsRejected(e: Entry) {
    e.attempt.Some? && e.attempt.value.status == Rejected
  }

  /** The rejections listed under a reason, if it is one of the group. */
  function ReasonsOf(reasons: map<ReasonKey, nat>, g: Group): ReasonKey -> nat {
    (k: ReasonKey) => if k.group == g && k in reasons then reasons[k] else 0
  }

  /** How many rejections of a group are listed under its reasons. */
  function Listed(order: seq<ReasonKey>, reasons: map<ReasonKey, nat>, g: Group): nat {
    Sum(order, ReasonsOf(reasons, g))
  }

  /** The rejections of a group that carry no reason code. */
  function Unlisted(entries: seq<Entry>, g: Group): nat {
    if entries == [] then 0
    else
      var n := |entries| - 1;
      var e := entries[n];
      Unlisted(entries[..n], g) + One(e.group == g && IsRejected(e) && e.attempt.value.reasonCode == "")
  }

  /** How many rejections of a group carry a code. */
  function RejectedWith(entries: seq<Entry>, k: ReasonKey): nat {
    if entries == [] then 0
    else
      var n := |entries| - 1;
      var e := entries[n];
      RejectedWith(entries[..n], k) + One(e.group == k.group && IsRejected(e) && e.attempt.value.reasonCode == k.code)
  }

  /** A pair of group and code is listed exactly if the code is not empty and some rejection of the group carries it,
      and then with the number of these rejections. */
  ghost predicate ReasonAgrees(entries: seq<Entry>, reasons: map<ReasonKey, nat>, k: ReasonKey) {
    && (k in reasons <==> k.code != "" && RejectedWith(entries, k) > 0)
    && (k in reasons ==> reasons[k] == RejectedWith(entries, k))
  }

  lemma ReasonAgreesNext(entries: seq<Entry>, i: nat, reasons: map<ReasonKey, nat>, reasons': map<ReasonKey, nat>, k: ReasonKey)
    requires i < |entries| && ReasonAgrees(entries[..i], reasons, k)
    requires var e := entries[i];
      reasons' == if IsRejected(e) && e.attempt.value.reasonCode != "" then
                    var key := ReasonKey(e.group, e.attempt.value.reasonCode);
                    reasons[key := (if key in reasons then reasons[key] else 0) + 1]
                  else reasons
    ensures ReasonAgrees(entries[..i + 1], reasons', k)
  {
    assert entries[..i + 1][..i] == entries[..i];
  }

  // ----- Numbers of entries -----

  /** The rejected entries of a group with a code. */
  function HasCode(g: Group, code: string): Entry -> bool {
    (e: Entry) => e.group == g && e.attempt.Some? && e.attempt.value.status == Rejected && e.attempt.value.reasonCode == code
  }

  lemma {:induction false} RejectedWithCounts(entries: seq<Entry>, k: ReasonKey)
    ensures RejectedWith(entries, k) == CountWhere(entries, HasCode(k.group, k.code))
  {
    if entries != [] {
      RejectedWithCounts(entries[..|entries| - 1], k);
    }
  }

  /** The entries of a group that count in a column: as imported, as placed if it has an attempt, and under the status
      it shows. */
  function InCell(g: Group, c: Column): Entry -> bool {
    (e: Entry) => e.group == g && (c == Imported || (c == Placed && e.attempt.Some?) || c == Showing(e.status))
  }

  lemma {:induction false} GroupCountCounts(entries: seq<Entry>, g: Group, c: Column)
    ensures GroupCount(entries, g, c) == CountWhere(entries, InCell(g, c))
  {
    if entries != [] {
      GroupCountCounts(entries[..|entries| - 1], g, c);
    }
  }

  lemma ReasonGrows(order: seq<ReasonKey>, reasons: map<ReasonKey, nat>, key: ReasonKey, g: Group)
    requires Distinct(order) && forall k :: k in order <==> k in reasons
    ensures var reasons' := reasons[key := (if key in reasons then reasons[key] else 0) + 1];
      Listed(if key in reasons then order else order + [key], reasons', g) == Listed(order, reasons, g) + One(key.group == g)
  {
    var f, f' := ReasonsOf(reasons, g), ReasonsOf(reasons[key := (if key in reasons then reasons[key] else 0) + 1], g);
    if key in reasons {
      var i :| 0 <= i < |order| && order[i] == key;
      SumGrows(order, f, f', i, One(key.group == g));
    } else {
      assert forall i | 0 <= i < |order| :: order[i] in order;
      SumExtends(order, f, f', key);
    }
  }

  /** Lists one rejection under its reason. */
  method AddReason(order: seq<ReasonKey>, reasons: map<ReasonKey, nat>, key: ReasonKey)
    returns (order': seq<ReasonKey>, reasons': map<ReasonKey, nat>)
    requires Distinct(order) && forall k :: k in order <==> k in reasons
    ensures Distinct(order') && forall k :: k in order' <==> k in reasons'
    ensures reasons' == reasons[key := (if key in reasons then reasons[key] else 0) + 1]
    ensures forall g :: Listed(order', reasons', g) == Listed(order, reasons, g) + One(key.group == g)
  {
    order' := if key in reasons then order else order + [key];
    reasons' := reasons[key := (if key in reasons then reasons[key] else 0) + 1];
    forall g ensures Listed(order', reasons', g) == Listed(order, reasons, g) + One(key.group == g) {
      ReasonGrows(order, reasons, key, g);
    }
  }

  // ----- The report -----

  datatype Report = Report(
    order: seq<Group>, rows: map<Group, Bucket>, total: Bucket, reasonOrder: seq<ReasonKey>, reasons: map<ReasonKey, nat>)

  /** Every rejection of a group is listed under its reason, or has none. */
  ghost predicate CountsReasons(entries: seq<Entry>, order: seq<ReasonKey>, reasons: map<ReasonKey, nat>) {
    && Distinct(order) && (forall k :: k in order <==> k in reasons)
    && forall g :: ReasonsAddUp(entries, order, reasons, g)
  }

  ghost predicate ReasonsAddUp(entries: seq<Entry>, order: seq<ReasonKey>, reasons: map<ReasonKey, nat>, g: Group) {
    Listed(order, reasons, g) + Unlisted(entries, g) == GroupCount(entries, g, Showing(ScreeningRejected))
  }

  /** The entry comes from one candidate: it has an attempt exactly when its status needs one, and the attempt
      is rejected exactly when the status says so. */
  predicate Genuine(e: Entry) {
    (e.attempt.Some? <==> NeedsAttempt(e.status)) && (IsRejected(e) <==> e.status == ScreeningRejected)
  }

  lemma ReasonStep(entries: seq<Entry>, i: nat, order: seq<ReasonKey>, reasons: map<ReasonKey, nat>,
                   order': seq<ReasonKey>, reasons': map<ReasonKey, nat>, g: Group)
    requires i < |entries| && Genuine(entries[i]) && ReasonsAddUp(entries[..i], order, reasons, g)
    requires var e := entries[i];
      Listed(order', reasons', g) == Listed(order, reasons, g) + One(IsRejected(e) && e.attempt.value.reasonCode != "" && e.group == g)
    ensures ReasonsAddUp(entries[..i + 1], order', reasons', g)
  {
    CountNext(entries, i, g, Showing(ScreeningRejected));
    assert entries[..i + 1][..i] == entries[..i];
  }

  /** Counts the entries of a report. */
  method Tally(entries: seq<Entry>) returns (r: Report)
    requires forall i | 0 <= i < |entries| :: Genuine(entries[i])
    ensures CountsRows(entries, r.order, r.rows, r.total)
    ensures CountsReasons(entries, r.reasonOrder, r.reasons)
    ensures forall k :: ReasonAgrees(entries, r.reasons, k)
  {
    var order: seq<Group>, rows: map<Group, Bucket>, total: Bucket := [], map[], map[];
    var reasonOrder: seq<ReasonKey>, reasons: map<ReasonKey, nat> := [], map[];
    for i := 0 to |entries|
      invariant CountsRows(entries[..i], order, rows, total)
      invariant CountsReasons(entries[..i], reasonOrder, reasons)
      invariant forall k :: ReasonAgrees(entries[..i], reasons, k)
    {
      var e := entries[i];
      order, rows, total := CountEntry(entries, i, order, rows, total, e);
      ghost var reasonOrder0, reasons0 := reasonOrder, reasons;
      if IsRejected(e) && e.attempt.value.reasonCode != "" {
        reasonOrder, reasons := AddReason(reasonOrder, reasons, ReasonKey(e.group, e.attempt.value.reasonCode));
      }
      ghost var longer := entries[..i + 1];
      forall g ensures ReasonsAddUp(longer, reasonOrder, reasons, g) {
        assert ReasonsAddUp(entries[..i], reasonOrder0, reasons0, g);
        ReasonStep(entries, i, reasonOrder0, reasons0, reasonOrder, reasons, g);
      }
      forall k ensures ReasonAgrees(longer, reasons, k) {
        assert ReasonAgrees(entries[..i], reasons0, k);
        ReasonAgreesNext(entries, i, reasons0, reasons, k);
      }
    }
    assert entries[..|entries|] == entries;
    r := Report(order, rows, total, reasonOrder, reasons);
  }

  // ----- What the columns say -----

  /** Imported is the sum of the eight statuses, and Placed the sum of the five that need an attempt. */
  ghost predicate Balanced(cell: Column -> nat) {
    && cell(Imported) == cell(Showing(Raw)) + cell(Showing(Archived)) + cell(Showing(PendingReallocation)) + cell(Placed)
    && cell(Placed) == cell(Showing(PendingReview)) + cell(Showing(PendingDispatch)) + cell(Showing(PendingScreening))
                       + cell(Showing(ScreeningPassed)) + cell(Showing(ScreeningRejected))
  }

  function CellsOf(b: Bucket): Column -> nat {
    (c: Column) => Cell(b, c)
  }

  function GroupCells(entries: seq<Entry>, g: Group): Column -> nat {
    (c: Column) => GroupCount(entries, g, c)
  }

  function AllCells(entries: seq<Entry>): Column -> nat {
    (c: Column) => AllCount(entries, c)
  }

  lemma BalanceGrows(cell: Column -> nat, cell': Column -> nat, e: Entry)
    requires Balanced(cell) && Genuine(e) && forall c: Column :: cell'(c) == cell(c) + Adds(e, c)
    ensures Balanced(cell')
  {
  }

  lemma {:induction false} AllIsBalanced(entries: seq<Entry>)
    requires forall i | 0 <= i < |entries| :: Genuine(entries[i])
    ensures Balanced(AllCells(entries))
  {
    if entries != [] {
      var n := |entries| - 1;
      AllIsBalanced(entries[..n]);
      BalanceGrows(AllCells(entries[..n]), AllCells(entries), entries[n]);
    }
  }

  lemma {:induction false} GroupIsBalanced(entries: seq<Entry>, g: Group)
    requires forall i | 0 <= i < |entries| :: Genuine(entries[i])
    ensures Balanced(GroupCells(entries, g))
  {
    if entries != [] {
      var n := |entries| - 1;
      GroupIsBalanced(entries[..n], g);
      if entries[n].group == g {
        BalanceGrows(GroupCells(entries[..n], g), GroupCells(entries, g), entries[n]);
      }
    }
  }

  lemma CellIsSize(entries: seq<Entry>, rows: map<Group, Bucket>, g: Group, c: Column)
    requires RowsAgree(entries, rows)
    ensures Cell(RowOf(rows, g), c) == |PositionsWhere(entries, InCell(g, c))|
  {
    assert RowAgrees(entries, rows, g, c);
    GroupCountCounts(entries, g, c);
    CountWhereIsSize(entries, InCell(g, c));
  }

  /** Every cell of the report is the number of entries that belong there: of the group, with an attempt, or with the
      status. */
  lemma CellsCountEntries(entries: seq<Entry>, r: Report, g: Group, s: Status)
    requires CountsRows(entries, r.order, r.rows, r.total)
    ensures Cell(RowOf(r.rows, g), Imported) == |set i | 0 <= i < |entries| && entries[i].group == g|
    ensures Cell(RowOf(r.rows, g), Placed) == |set i | 0 <= i < |entries| && entries[i].group == g && entries[i].attempt.Some?|
    ensures Cell(RowOf(r.rows, g), Showing(s)) == |set i | 0 <= i < |entries| && entries[i].group == g && entries[i].status == s|
  {
    CellIsSize(entries, r.rows, g, Imported);
    CellIsSize(entries, r.rows, g, Placed);
    CellIsSize(entries, r.rows, g, Showing(s));
    assert PositionsWhere(entries, InCell(g, Imported)) == set i | 0 <= i < |entries| && entries[i].group == g;
    assert PositionsWhere(entries, InCell(g, Placed)) == set i | 0 <= i < |entries| && entries[i].group == g && entries[i].attempt.Some?;
    assert PositionsWhere(entries, InCell(g, Showing(s))) == set i | 0 <= i < |entries| && entries[i].group == g && entries[i].status == s;
  }

  /** A reason is listed for a group exactly if it is not empty and some rejected entry of the group has it, and then
      with the number of these entries. */
  lemma ReasonsCountEntries(entries: seq<Entry>, r: Report, g: Group, code: string)
    requires forall k :: ReasonAgrees(entries, r.reasons, k)
    ensures var rejected := set i | 0 <= i < |entries| && entries[i].group == g && entries[i].attempt.Some?
                              && entries[i].attempt.value.status == Rejected && entries[i].attempt.value.reasonCode == code;
      var k := ReasonKey(g, code);
      (k in r.reasons <==> code != "" && rejected != {}) && (k in r.reasons ==> r.reasons[k] == |rejected|)
  {
    assert ReasonAgrees(entries, r.reasons, ReasonKey(g, code));
    RejectedWithCounts(entries, ReasonKey(g, code));
    CountWhereIsSize(entries, HasCode(g, code));
    assert PositionsWhere(entries, HasCode(g, code))
      == set i | 0 <= i < |entries| && entries[i].group == g && entries[i].attempt.Some?
               && entries[i].attempt.value.status == Rejected && entries[i].attempt.value.reasonCode == code;
  }

  /** In every row and in the total, imported is the sum of the eight status columns and placed the sum of the
      five that need an attempt; the total is the sum of the rows in every column; and the rejections listed
      under a reason for a group are at most its rejected column, all of it exactly when no rejection of the
      group lacks a reason code. */
  lemma ColumnsAgree(entries: seq<Entry>, r: Report, g: Group)
    requires forall i | 0 <= i < |entries| :: Genuine(entries[i])
    requires CountsRows(entries, r.order, r.rows, r.total) && CountsReasons(entries, r.reasonOrder, r.reasons)
    ensures Balanced(CellsOf(r.total)) && Balanced(CellsOf(RowOf(r.rows, g)))
    ensures forall c: Column :: Cell(r.total, c) == Sum(r.order, ColumnOf(r.rows, c))
    ensures Listed(r.reasonOrder, r.reasons, g) <= Cell(RowOf(r.rows, g), Showing(ScreeningRejected))
    ensures Listed(r.reasonOrder, r.reasons, g) == Cell(RowOf(r.rows, g), Showing(ScreeningRejected)) <==> Unlisted(entries, g) == 0
  {
    AllIsBalanced(entries);
    GroupIsBalanced(entries, g);
    forall c: Column ensures CellsOf(r.total)(c) == AllCells(entries)(c) {
      assert TotalAgrees(entries, r.order, r.rows, r.total, c);
    }
    forall c: Column ensures CellsOf(RowOf(r.rows, g))(c) == GroupCells(entries, g)(c) {
      assert RowAgrees(entries, r.rows, g, c);
    }
    SameBalance(AllCells(entries), CellsOf(r.total));
    SameBalance(GroupCells(entries, g), CellsOf(RowOf(r.rows, g)));
    assert ReasonsAddUp(entries, r.reasonOrder, r.reasons, g);
    assert RowAgrees(entries, r.rows, g, Showing(ScreeningRejected));
    forall c: Column ensures Cell(r.total, c) == Sum(r.order, ColumnOf(r.rows, c)) {
      assert TotalAgrees(entries, r.order, r.rows, r.total, c);
    }
  }

  lemma SameBalance(cell: Column -> nat, cell': Column -> nat)
    requires Balanced(cell) && forall c: Column :: cell'(c) == cell(c)
    ensures Balanced(cell')
  {
  }

  // ----- The entries of a report -----

  const ORPHANED := "未归属一级部门"
  const UNPLACED := "未分配"

  /** The group of a resume: the departments above the one that received the current attempt. */
  function GroupOf(depts: seq<Department>, attempt: Option<Attempt>): Group {
    var department := if attempt.Some? then attempt.value.department else None;
    Group(if PrimaryOf(depts, department).Some? then PrimaryName(depts, department)
          else if department.Some? then ORPHANED else UNPLACED,
          if SecondaryOf(depts, department).Some? then SecondaryName(depts, department) else UNPLACED)
  }

  /** The names of a group are those of the departments above the receiving one, or the label for a missing one. */
  lemma GroupNames(depts: seq<Department>, a: Attempt, p: nat, s: nat)
    ensures a.department.None? ==> GroupOf(depts, Some(a)) == Group("未分配", "未分配") == GroupOf(depts, None)
    ensures a.department.Some? ==>
      var primary, secondary := PrimaryOf(depts, a.department), SecondaryOf(depts, a.department);
      && (primary.None? ==> GroupOf(depts, Some(a)).primary == "未归属一级部门")
      && (primary == Some(p) ==> p < |depts| && GroupOf(depts, Some(a)).primary == depts[p].name)
      && (secondary.None? ==> GroupOf(depts, Some(a)).secondary == "未分配")
      && (secondary == Some(s) ==> s < |depts| && GroupOf(depts, Some(a)).secondary == depts[s].name)
  {
    if a.department.Some? {
      PrimaryIff(depts, a.department.value, p);
      SecondaryIff(depts, a.department.value, s);
    }
  }

  function EntryOf(depts: seq<Department>, c: Candidate): Entry {
    Entry(GroupOf(depts, CurrentAttempt(c)), StatusOf(c), CurrentAttempt(c))
  }

  function EntriesOf(depts: seq<Department>, candidates: seq<Candidate>): (entries: seq<Entry>)
    ensures |entries| == |candidates| && forall i | 0 <= i < |entries| :: entries[i] == EntryOf(depts, candidates[i])
  {
    if candidates == [] then [] else EntriesOf(depts, candidates[..|candidates| - 1]) + [EntryOf(depts, candidates[|candidates| - 1])]
  }

  lemma EntriesAreGenuine(depts: seq<Department>, c: Candidate)
    requires c.resumes != []
    ensures Genuine(EntryOf(depts, c))
  {
    StatusMirrorsAttempt(c);
  }

  /** The report over the candidates of the reported resumes. */
  method BuildReport(depts: seq<Department>, candidates: seq<Candidate>) returns (r: Report)
    requires forall i | 0 <= i < |candidates| :: candidates[i].resumes != []
    ensures CountsRows(EntriesOf(depts, candidates), r.order, r.rows, r.total)
    ensures CountsReasons(EntriesOf(depts, candidates), r.reasonOrder, r.reasons)
    ensures forall k :: ReasonAgrees(EntriesOf(depts, candidates), r.reasons, k)
    ensures Cell(r.total, Imported) == |candidates|
  {
    var entries := EntriesOf(depts, candidates);
    forall i | 0 <= i < |entries| ensures Genuine(entries[i]) {
      EntriesAreGenuine(depts, candidates[i]);
    }
    r := Tally(entries);
    EachIsImported(entries);
    assert TotalAgrees(entries, r.order, r.rows, r.total, Imported);
  }

  lemma {:induction false} EachIsImported(entries: seq<Entry>)
    ensures AllCount(entries, Imported) == |entries|
  {
    if entries != [] {
      EachIsImported(entries[..|entries| - 1]);
    }
  }
}
