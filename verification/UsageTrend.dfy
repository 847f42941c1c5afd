/** Usage statistics: the zero-filled trend of page views.  Times are microseconds of local time, at a fixed
    offset; day 1 is a Monday. */
module UsageTrend {
  import opened Wrappers

  const HOUR: int := 3_600_000_000
  const DAY: int := 24 * HOUR

  datatype Granularity = Hour | Day | Week

  datatype View = View(at: int, session: nat, user: Option<nat>, page: nat)

  // ----- Buckets -----

  /** The start of the hour, the day, or the week (which begins on Monday) that a time lies in. */
  function BucketFloor(t: int, g: Granularity): int {
    var hour := t - t % HOUR;
    if g.Hour? then hour
    else
      var day := hour - hour % DAY;
      if g.Day? then day else day - ((day / DAY + 6) % 7) * DAY
  }

  function StepOf(g: Granularity): int {
    match g
    case Hour => HOUR
    case Day => DAY
    case Week => 7 * DAY
  }

  /** Where bucket number i begins. */
  function Start(i: int, g: Granularity): int {
    match g
    case Hour => HOUR * i
    case Day => DAY * i
    case Week => DAY * (7 * i - 6)
  }

  /** The number of the bucket that a time lies in. */
  function Number(t: int, g: Granularity): int {
    match g
    case Hour => t / HOUR
    case Day => t / DAY
    case Week => (t / DAY + 6) / 7
  }

  lemma HoursOfDay(t: int)
    ensures (t - t % HOUR) - (t - t % HOUR) % DAY == DAY * (t / DAY)
  {
    var q, r := t / DAY, t % DAY;
    assert t == DAY * q + r;
    var h := r / HOUR;
    assert t / HOUR == 24 * q + h && 0 <= h < 24;
    var hour := t - t % HOUR;
    assert hour == DAY * q + HOUR * h;
  }

  /** Rounding down gives the beginning of the bucket that the time lies in. */
  lemma FloorIsStart(t: int, g: Granularity)
    ensures BucketFloor(t, g) == Start(Number(t, g), g)
  {
    HoursOfDay(t);
    if g.Week? {
      var day := DAY * (t / DAY);
      assert day / DAY == t / DAY;
      var d := t / DAY;
      assert d - (d + 6) % 7 == 7 * ((d + 6) / 7) - 6;
    }
  }

  /** Buckets are contiguous, and every time lies in exactly one. */
  lemma NumberIsUnique(t: int, i: int, g: Granularity)
    ensures Start(i + 1, g) == Start(i, g) + StepOf(g)
    ensures Number(t, g) == i <==> Start(i, g) <= t < Start(i + 1, g)
  {
    if g.Week? {
      var d := t / DAY;
      assert DAY * (7 * i - 6) <= t <==> 7 * i - 6 <= d;
    }
  }

  // ----- The trend -----

  datatype Filters = Filters(dateFrom: int, dateTo: int, granularity: Granularity, page: Option<nat>)

  datatype Metrics = Metrics(views: nat, sessions: nat, users: nat)

  datatype Row = Row(bucket: int, metrics: Metrics)

  function RangeStart(f: Filters): int {
    f.dateFrom * DAY
  }

  function RangeEnd(f: Filters): int {
    (f.dateTo + 1) * DAY
  }

  predicate IsSelected(f: Filters, now: int, v: View) {
    RangeStart(f) <= v.at < RangeEnd(f) && v.at <= now && (f.page.Some? ==> v.page == f.page.value)
  }

  function Selected(views: seq<View>, f: Filters, now: int): (r: seq<View>)
    ensures forall k | 0 <= k < |r| :: IsSelected(f, now, r[k])
    ensures forall v :: v in r <==> v in views && IsSelected(f, now, v)
  {
    if views == [] then []
    else
      var n := |views| - 1;
      Selected(views[..n], f, now) + if IsSelected(f, now, views[n]) then [views[n]] else []
  }

  function Sessions(views: seq<View>): set<nat> {
    set v | v in views :: v.session
  }

  /** The users that signed their views; an empty employee number does not count. */
  function Users(views: seq<View>): set<nat> {
    set v | v in views && v.user.Some? :: v.user.value
  }

  function MetricsOf(views: seq<View>): Metrics {
    Metrics(|views|, |Sessions(views)|, |Users(views)|)
  }

  /** The bucket number of every time. */
  type Numbering = int -> int

  /** The beginning of every bucket. */
  function StartIn(g: Granularity): int -> int {
    (i: int) => Start(i, g)
  }

  function NumberIn(g: Granularity): Numbering {
    (t: int) => Number(t, g)
  }

  /** The views in the buckets from number i up to number j, without j. */
  function Between(views: seq<View>, number: Numbering, i: int, j: int): (r: seq<View>)
    ensures forall v :: v in r <==> v in views && i <= number(v.at) < j
  {
    if views == [] then []
    else
      var n := |views| - 1;
      var before := Between(views[..n], number, i, j);
      if i <= number(views[n].at) < j then before + [views[n]] else before
  }

  /** Groups the views by the beginning of their bucket. */
  method GroupByBucket(views: seq<View>, g: Granularity) returns (groups: map<int, seq<View>>)
    ensures forall i :: Grouped(views, g, groups, i)
  {
    groups := map[];
    for n := 0 to |views|
      invariant forall i :: Grouped(views[..n], g, groups, i)
    {
      TakeNext(views, n);
      var key, before := BucketFloor(views[n].at, g), groups;
      var number := Number(views[n].at, g);
      FloorIsStart(views[n].at, g);
      assert Grouped(views[..n], g, before, number);
      groups := groups[key := (if key in groups then groups[key] else []) + [views[n]]];
      ghost var upTo := views[..n + 1];
      forall i ensures Grouped(upTo, g, groups, i) {
        assert Grouped(views[..n], g, before, i);
        StartIsInjective(i, number, g);
      }
    }
    assert views[..|views|] == views;
  }

  ghost predicate Grouped(views: seq<View>, g: Granularity, groups: map<int, seq<View>>, i: int) {
    (if Start(i, g) in groups then groups[Start(i, g)] else []) == Between(views, NumberIn(g), i, i + 1)
  }

  lemma StartIsInjective(i: int, j: int, g: Granularity)
    ensures Start(i, g) == Start(j, g) <==> i == j
  {
  }

  /** The metrics of the views in the buckets from one number up to another. */
  type Measure = (int, int) -> Metrics

  function MeasureOf(views: seq<View>, g: Granularity): Measure {
    (i: int, j: int) => MetricsOf(Between(views, NumberIn(g), i, j))
  }

  /** The rows count the buckets from number first on, one after the other. */
  ghost predicate Counts(rows: seq<Row>, m: Measure, first: int) {
    forall k | 0 <= k < |rows| :: rows[k].metrics == m(first + k, first + k + 1)
  }

  /** Neighbouring rows belong to neighbouring buckets. */
  ghost predicate Contiguous(rows: seq<Row>, start: int, step: int) {
    && (rows != [] ==> rows[0].bucket == start)
    && forall k | 1 <= k < |rows| :: rows[k].bucket == rows[k - 1].bucket + step
  }

  /** The last row is the first whose bucket reaches the end. */
  predicate Reaches(rows: seq<Row>, end: int, step: int) {
    rows != [] && rows[|rows| - 1].bucket < end <= rows[|rows| - 1].bucket + step
  }

  function CellOf(cells: map<int, Metrics>, bucket: int): Metrics {
    if bucket in cells then cells[bucket] else Metrics(0, 0, 0)
  }

  lemma CellMeasures(views: seq<View>, g: Granularity, groups: map<int, seq<View>>, cells: map<int, Metrics>, i: int)
    requires cells == (map bucket | bucket in groups :: MetricsOf(groups[bucket])) && Grouped(views, g, groups, i)
    ensures CellOf(cells, Start(i, g)) == MeasureOf(views, g)(i, i + 1)
  {
  }

  ghost predicate CellCounts(cells: map<int, Metrics>, begin: int -> int, m: Measure, i: int) {
    CellOf(cells, begin(i)) == m(i, i + 1)
  }

  ghost predicate StepsBy(begin: int -> int, step: int, i: int) {
    begin(i + 1) == begin(i) + step
  }

  lemma CountsNext(rows: seq<Row>, m: Measure, first: int, row: Row)
    requires Counts(rows, m, first) && row.metrics == m(first + |rows|, first + |rows| + 1)
    ensures Counts(rows + [row], m, first)
  {
  }

  /** One row per bucket from the first, with zeros where nothing happened, until the end is reached. */
  method FillRows(cells: map<int, Metrics>, start: int, end: int, step: int, ghost begin: int -> int, ghost m: Measure, ghost first: int)
    returns (rows: seq<Row>)
    requires start == begin(first) && step > 0
    requires forall i: int :: StepsBy(begin, step, i) && CellCounts(cells, begin, m, i)
    ensures Counts(rows, m, first) && Contiguous(rows, start, step)
    ensures rows != [] ==> rows[|rows| - 1].bucket == begin(first + |rows| - 1)
    ensures start < end ==> Reaches(rows, end, step)
  {
    var cursor := start;
    rows := [];
    ghost var i := first;
    while cursor < end
      invariant i == first + |rows| && cursor == begin(i)
      invariant Counts(rows, m, first) && Contiguous(rows, start, step)
      invariant rows != [] ==> rows[|rows| - 1].bucket < end && rows[|rows| - 1].bucket + step == cursor
      invariant rows != [] ==> rows[|rows| - 1].bucket == begin(i - 1)
      invariant rows == [] ==> cursor == start
      decreases end - cursor
    {
      assert StepsBy(begin, step, i) && CellCounts(cells, begin, m, i);
      var row := Row(cursor, CellOf(cells, cursor));
      CountsNext(rows, m, first, row);
      rows := rows + [row];
      cursor := cursor + step;
      i := i + 1;
    }
  }

  /** The trend: one row per bucket from the one that holds the start of the range to the one that holds its
      end. */
  method TrendRows(views: seq<View>, f: Filters) returns (rows: seq<Row>)
    ensures Counts(rows, MeasureOf(views, f.granularity), Number(RangeStart(f), f.granularity))
    ensures Contiguous(rows, BucketFloor(RangeStart(f), f.granularity), StepOf(f.granularity))
    ensures rows != [] ==> rows[|rows| - 1].bucket == Start(Number(RangeStart(f), f.granularity) + |rows| - 1, f.granularity)
    ensures f.dateFrom <= f.dateTo ==> Reaches(rows, RangeEnd(f), StepOf(f.granularity))
  {
    var g := f.granularity;
    var groups := GroupByBucket(views, g);
    var cells := map bucket | bucket in groups :: MetricsOf(groups[bucket]);
    CellsCount(views, g, groups, cells);
    RangeIsPositive(f);
    rows := FillRows(cells, BucketFloor(RangeStart(f), g), RangeEnd(f), StepOf(g), StartIn(g), MeasureOf(views, g), Number(RangeStart(f), g));
  }

  lemma CellsCount(views: seq<View>, g: Granularity, groups: map<int, seq<View>>, cells: map<int, Metrics>)
    requires cells == (map bucket | bucket in groups :: MetricsOf(groups[bucket])) && forall i :: Grouped(views, g, groups, i)
    ensures forall i: int :: StepsBy(StartIn(g), StepOf(g), i) && CellCounts(cells, StartIn(g), MeasureOf(views, g), i)
  {
    forall i: int ensures StepsBy(StartIn(g), StepOf(g), i) && CellCounts(cells, StartIn(g), MeasureOf(views, g), i) {
      assert Grouped(views, g, groups, i);
      CellMeasures(views, g, groups, cells, i);
      NextStart(i, g);
    }
  }

  lemma RangeIsPositive(f: Filters)
    ensures BucketFloor(RangeStart(f), f.granularity) == Start(Number(RangeStart(f), f.granularity), f.granularity) <= RangeStart(f)
    ensures f.dateFrom <= f.dateTo ==> RangeStart(f) < RangeEnd(f)
    ensures StepOf(f.granularity) > 0
  {
    FloorIsStart(RangeStart(f), f.granularity);
    NumberIsUnique(RangeStart(f), Number(RangeStart(f), f.granularity), f.granularity);
  }

  lemma NextStart(i: int, g: Granularity)
    ensures Start(i + 1, g) == Start(i, g) + StepOf(g)
  {
  }

  // ----- The trend agrees with the summary -----

  /** The buckets from i to j and bucket j hold together what the buckets from i through j hold. */
  lemma {:induction false} BetweenSplits(views: seq<View>, number: Numbering, i: int, j: int)
    requires i <= j
    ensures |Between(views, number, i, j + 1)| == |Between(views, number, i, j)| + |Between(views, number, j, j + 1)|
  {
    if views != [] {
      BetweenSplits(views[..|views| - 1], number, i, j);
    }
  }

  function TotalViews(rows: seq<Row>): nat {
    if rows == [] then 0 else TotalViews(rows[..|rows| - 1]) + rows[|rows| - 1].metrics.views
  }

  function TotalSessions(rows: seq<Row>): nat {
    if rows == [] then 0 else TotalSessions(rows[..|rows| - 1]) + rows[|rows| - 1].metrics.sessions
  }

  function TotalUsers(rows: seq<Row>): nat {
    if rows == [] then 0 else TotalUsers(rows[..|rows| - 1]) + rows[|rows| - 1].metrics.users
  }

  /** What rows say about the views of all their buckets together. */
  ghost predicate Agrees(rows: seq<Row>, all: Metrics) {
    && TotalViews(rows) == all.views
    && all.sessions <= TotalSessions(rows) && all.users <= TotalUsers(rows)
    && forall k | 0 <= k < |rows| :: rows[k].metrics.sessions <= all.sessions && rows[k].metrics.users <= all.users
  }

  lemma AgreesNext(rows: seq<Row>, all: Metrics, row: Row, all': Metrics)
    requires Agrees(rows, all) && Adds(all, row.metrics, all')
    ensures Agrees(rows + [row], all')
  {
    assert (rows + [row])[..|rows|] == rows;
  }

  /** Metrics of neighbouring ranges: views add up, distinct counts are at least each and at most both. */
  predicate Adds(left: Metrics, right: Metrics, all: Metrics) {
    && all.views == left.views + right.views
    && left.sessions <= all.sessions && right.sessions <= all.sessions <= left.sessions + right.sessions
    && left.users <= all.users && right.users <= all.users <= left.users + right.users
  }

  ghost predicate AddsAt(m: Measure, first: int, j: int) {
    first <= j ==> Adds(m(first, j), m(j, j + 1), m(first, j + 1))
  }

  lemma {:induction false} RowsAgree(rows: seq<Row>, m: Measure, first: int)
    requires Counts(rows, m, first) && m(first, first) == Metrics(0, 0, 0)
    requires forall j: int :: AddsAt(m, first, j)
    ensures Agrees(rows, m(first, first + |rows|))
  {
    if rows != [] {
      var n := |rows| - 1;
      RowsAgree(rows[..n], m, first);
      assert AddsAt(m, first, first + n);
      AgreesNext(rows[..n], m(first, first + n), rows[n], m(first, first + n + 1));
      assert rows == rows[..n] + [rows[n]];
    }
  }

  lemma MetricsAdd(views: seq<View>, number: Numbering, i: int, j: int)
    requires i <= j
    ensures Adds(MetricsOf(Between(views, number, i, j)), MetricsOf(Between(views, number, j, j + 1)),
                 MetricsOf(Between(views, number, i, j + 1)))
  {
    BetweenSplits(views, number, i, j);
    var all, left, right := Between(views, number, i, j + 1), Between(views, number, i, j), Between(views, number, j, j + 1);
    assert Sessions(all) == Sessions(left) + Sessions(right);
    assert Users(all) == Users(left) + Users(right);
    UnionSize(Sessions(left), Sessions(right));
    UnionSize(Users(left), Users(right));
  }

  lemma {:induction false} NothingBetween(views: seq<View>, number: Numbering, i: int)
    ensures Between(views, number, i, i) == []
  {
    if views != [] {
      NothingBetween(views[..|views| - 1], number, i);
    }
  }

  lemma UnionSize(a: set<nat>, b: set<nat>)
    ensures |a| <= |a + b| && |b| <= |a + b| <= |a| + |b|
  {
    assert |a + b| + |a * b| == |a| + |b|;
    assert |a + b| == |a| + |b - a|;
    assert |a + b| == |b| + |a - b| by {
      assert a + b == b + (a - b);
    }
  }

  /** The views lie in the buckets from i up to j. */
  ghost predicate LieBetween(views: seq<View>, number: Numbering, i: int, j: int) {
    forall k | 0 <= k < |views| :: i <= number(views[k].at) < j
  }

  lemma {:induction false} EverythingBetween(views: seq<View>, number: Numbering, i: int, j: int)
    requires LieBetween(views, number, i, j)
    ensures Between(views, number, i, j) == views
  {
    if views != [] {
      EverythingBetween(views[..|views| - 1], number, i, j);
    }
  }

  /** A time in the range lies in one of the buckets of the trend. */
  lemma RangeLiesInBuckets(t: int, start: int, end: int, last: int, g: Granularity)
    requires start <= t < end <= Start(last, g) + StepOf(g)
    ensures Number(start, g) <= Number(t, g) <= last
  {
  }

  /** The views lie in the range of times. */
  ghost predicate LieWithin(views: seq<View>, start: int, end: int) {
    forall k | 0 <= k < |views| :: start <= views[k].at < end
  }

  lemma ViewsLieInBuckets(views: seq<View>, start: int, end: int, last: int, g: Granularity)
    requires end <= Start(last, g) + StepOf(g) && LieWithin(views, start, end)
    ensures LieBetween(views, NumberIn(g), Number(start, g), last + 1)
  {
    forall k | 0 <= k < |views| ensures Number(start, g) <= NumberIn(g)(views[k].at) < last + 1 {
      RangeLiesInBuckets(views[k].at, start, end, last, g);
    }
  }

  datatype Overview = Overview(summary: Metrics, trend: seq<Row>)

  /** The overview of a date range: the trend covers the range without gaps, its page views add up to the
      summary, no bucket has more sessions or users than the summary, and the summary has no more than the
      buckets together. */
  method BuildOverview(views: seq<View>, f: Filters, now: int) returns (o: Overview)
    requires f.dateFrom <= f.dateTo
    ensures o.summary == MetricsOf(Selected(views, f, now))
    ensures Contiguous(o.trend, BucketFloor(RangeStart(f), f.granularity), StepOf(f.granularity))
    ensures Reaches(o.trend, RangeEnd(f), StepOf(f.granularity))
    ensures Counts(o.trend, MeasureOf(Selected(views, f, now), f.granularity), Number(RangeStart(f), f.granularity))
    ensures Agrees(o.trend, o.summary)
  {
    var selected := Selected(views, f, now);
    var trend := TrendRows(selected, f);
    o := Overview(MetricsOf(selected), trend);
    SelectedLieWithin(views, f, now);
    OverviewAgrees(selected, f.granularity, RangeStart(f), RangeEnd(f), trend);
  }

  lemma TrendCoversViews(views: seq<View>, g: Granularity, start: int, end: int, trend: seq<Row>)
    requires LieWithin(views, start, end)
    requires Reaches(trend, end, StepOf(g)) && trend[|trend| - 1].bucket == Start(Number(start, g) + |trend| - 1, g)
    ensures LieBetween(views, NumberIn(g), Number(start, g), Number(start, g) + |trend|)
  {
    ViewsLieInBuckets(views, start, end, Number(start, g) + |trend| - 1, g);
  }

  lemma TrendAgreesWithViews(views: seq<View>, g: Granularity, first: int, trend: seq<Row>)
    requires LieBetween(views, NumberIn(g), first, first + |trend|) && Counts(trend, MeasureOf(views, g), first)
    ensures Agrees(trend, MetricsOf(views))
  {
    MeasureFacts(views, g, first, first + |trend|);
    TrendAgrees(trend, MeasureOf(views, g), first, MetricsOf(views));
  }

  lemma OverviewAgrees(views: seq<View>, g: Granularity, start: int, end: int, trend: seq<Row>)
    requires LieWithin(views, start, end) && Reaches(trend, end, StepOf(g))
    requires trend[|trend| - 1].bucket == Start(Number(start, g) + |trend| - 1, g)
    requires Counts(trend, MeasureOf(views, g), Number(start, g))
    ensures Agrees(trend, MetricsOf(views))
  {
    TrendCoversViews(views, g, start, end, trend);
    TrendAgreesWithViews(views, g, Number(start, g), trend);
  }

  lemma SelectedLieWithin(views: seq<View>, f: Filters, now: int)
    ensures LieWithin(Selected(views, f, now), RangeStart(f), RangeEnd(f))
  {
    forall k | 0 <= k < |Selected(views, f, now)|
      ensures RangeStart(f) <= Selected(views, f, now)[k].at < RangeEnd(f)
    {
      assert IsSelected(f, now, Selected(views, f, now)[k]);
    }
  }

  /** An empty stretch measures nothing, and neighbouring stretches add up. */
  ghost predicate Additive(m: Measure, first: int) {
    m(first, first) == Metrics(0, 0, 0) && forall j: int :: AddsAt(m, first, j)
  }

  lemma TrendAgrees(trend: seq<Row>, m: Measure, first: int, total: Metrics)
    requires Counts(trend, m, first) && Additive(m, first) && total == m(first, first + |trend|)
    ensures Agrees(trend, total)
  {
    RowsAgree(trend, m, first);
  }

  lemma MeasureFacts(views: seq<View>, g: Granularity, first: int, end: int)
    requires LieBetween(views, NumberIn(g), first, end)
    ensures Additive(MeasureOf(views, g), first) && MeasureOf(views, g)(first, end) == MetricsOf(views)
  {
    EverythingBetween(views, NumberIn(g), first, end);
    NothingBetween(views, NumberIn(g), first);
    forall j: int ensures AddsAt(MeasureOf(views, g), first, j) {
      if first <= j {
        MetricsAdd(views, NumberIn(g), first, j);
      }
    }
  }

  // ----- The numbers of the overview in terms of the page views -----

  /** The views from the first day through the last, not in the future, and of the wanted page if there is one. */
  function Wanted(f: Filters, now: int): View -> bool {
    (v: View) => f.dateFrom * DAY <= v.at && v.at < (f.dateTo + 1) * DAY && v.at <= now && (f.page.None? || v.page == f.page.value)
  }

  function Within(start: int, end: int): View -> bool {
    (v: View) => start <= v.at < end
  }

  lemma {:induction false} SelectedCounts(views: seq<View>, f: Filters, now: int)
    ensures |Selected(views, f, now)| == CountWhere(views, Wanted(f, now))
  {
    if views != [] {
      SelectedCounts(views[..|views| - 1], f, now);
    }
  }

  /** The summary counts every wanted view once, and its different sessions and signed users. */
  lemma SummaryCounts(views: seq<View>, f: Filters, now: int)
    ensures var m := MetricsOf(Selected(views, f, now));
      && m.views == |PositionsWhere(views, Wanted(f, now))|
      && m.sessions == |set v | v in views && Wanted(f, now)(v) :: v.session|
      && m.users == |set v | v in views && Wanted(f, now)(v) && v.user.Some? :: v.user.value|
  {
    SelectedCounts(views, f, now);
    CountWhereIsSize(views, Wanted(f, now));
    var selected := Selected(views, f, now);
    assert forall v :: v in selected <==> v in views && Wanted(f, now)(v);
    assert Sessions(selected) == set v | v in views && Wanted(f, now)(v) :: v.session;
    assert Users(selected) == set v | v in views && Wanted(f, now)(v) && v.user.Some? :: v.user.value;
  }

  lemma {:induction false} BetweenCounts(views: seq<View>, g: Granularity, i: int)
    ensures |Between(views, NumberIn(g), i, i + 1)| == CountWhere(views, Within(Start(i, g), Start(i, g) + StepOf(g)))
  {
    if views != [] {
      BetweenCounts(views[..|views| - 1], g, i);
      NumberIsUnique(views[|views| - 1].at, i, g);
    }
  }

  /** What the bucket that begins at a time counts. */
  ghost predicate CountsBucket(views: seq<View>, start: int, end: int, m: Metrics) {
    && m.views == |PositionsWhere(views, Within(start, end))|
    && m.sessions == |set v | v in views && start <= v.at < end :: v.session|
    && m.users == |set v | v in views && start <= v.at < end && v.user.Some? :: v.user.value|
  }

  lemma BucketCounts(views: seq<View>, g: Granularity, i: int)
    ensures CountsBucket(views, Start(i, g), Start(i, g) + StepOf(g), MeasureOf(views, g)(i, i + 1))
  {
    var start, end := Start(i, g), Start(i, g) + StepOf(g);
    var between := Between(views, NumberIn(g), i, i + 1);
    BetweenCounts(views, g, i);
    CountWhereIsSize(views, Within(start, end));
    forall v ensures v in between <==> v in views && start <= v.at < end {
      NumberIsUnique(v.at, i, g);
    }
    assert Sessions(between) == set v | v in views && start <= v.at < end :: v.session;
    assert Users(between) == set v | v in views && start <= v.at < end && v.user.Some? :: v.user.value;
  }

  lemma {:induction false} BucketOfRow(rows: seq<Row>, start: int, g: Granularity, k: nat)
    requires k < |rows| && Contiguous(rows, BucketFloor(start, g), StepOf(g))
    ensures rows[k].bucket == Start(Number(start, g) + k, g)
  {
    if k == 0 {
      FloorIsStart(start, g);
    } else {
      BucketOfRow(rows, start, g, k - 1);
      NextStart(Number(start, g) + k - 1, g);
    }
  }

  lemma RowCountsBucket(row: Row, views: seq<View>, g: Granularity, i: int)
    requires row.bucket == Start(i, g) && row.metrics == MeasureOf(views, g)(i, i + 1)
    ensures CountsBucket(views, row.bucket, row.bucket + StepOf(g), row.metrics)
  {
    BucketCounts(views, g, i);
  }

  /** Every row of the trend counts the views from the beginning of its bucket up to the next one, and their different
      sessions and signed users. */
  lemma RowsCountViews(views: seq<View>, g: Granularity, start: int, rows: seq<Row>)
    requires Counts(rows, MeasureOf(views, g), Number(start, g))
    requires Contiguous(rows, BucketFloor(start, g), StepOf(g))
    ensures forall k | 0 <= k < |rows| :: CountsBucket(views, rows[k].bucket, rows[k].bucket + StepOf(g), rows[k].metrics)
  {
    forall k | 0 <= k < |rows| ensures rows[k].bucket == Start(Number(start, g) + k, g) {
      BucketOfRow(rows, start, g, k);
    }
    forall k | 0 <= k < |rows| {
      RowCountsBucket(rows[k], views, g, Number(start, g) + k);
    }
  }
}
