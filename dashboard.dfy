/** The dashboard controller (src/controllers/dashboardController.ts): a card summary of all of a
    user's expenses, a bar chart of the last 12 months or 7 years, and a pie chart of one month
    or year grouped by category or sub-category name.

    The records are the rows of the expense table in the order the store returns them; the
    SQL selections become filters over that sequence. `now` is the current time value, `today`
    the local calendar date it falls on, and `tz` the fixed offset of the local zone. */
module Dashboard {
  import opened Common
  import opened Calendar
  import opened Records
  import opened Grouping
  import opened Sorting
  import opened DashboardQuery
  import Paging

  // ---------------------------------------------------------------------------------------
  // Selecting records

  /** The records that `keep` accepts, in their order. */
  function Filter(rs: seq<ExpenseRecord>, keep: ExpenseRecord -> bool): (r: seq<ExpenseRecord>)
    ensures |r| <= |rs|
    ensures forall x :: x in r <==> x in rs && keep(x)
    ensures (forall x :: x in rs ==> !keep(x)) ==> r == []
  {
    if rs == [] then []
    else
      var n := |rs| - 1;
      assert rs == rs[..n] + [rs[n]];
      Filter(rs[..n], keep) + (if keep(rs[n]) then [rs[n]] else [])
  }

  /** Filtering a concatenation filters each part. */
  lemma {:induction false} FilterAppend(a: seq<ExpenseRecord>, b: seq<ExpenseRecord>, keep: ExpenseRecord -> bool)
    ensures Filter(a + b, keep) == Filter(a, keep) + Filter(b, keep)
  {
    if b != [] {
      var n := |b| - 1;
      assert (a + b)[..|a + b| - 1] == a + b[..n];
      FilterAppend(a, b[..n], keep);
    } else {
      assert a + b == a;
    }
  }

  /** Records that the filter rejects can be added anywhere after the others without effect. */
  lemma FilterIgnores(a: seq<ExpenseRecord>, b: seq<ExpenseRecord>, keep: ExpenseRecord -> bool)
    requires forall x :: x in b ==> !keep(x)
    ensures Filter(a + b, keep) == Filter(a, keep)
  {
    FilterAppend(a, b, keep);
  }

  function SumAmounts(rs: seq<ExpenseRecord>): int {
    if rs == [] then 0 else SumAmounts(rs[..|rs| - 1]) + rs[|rs| - 1].amount
  }

  /** `eq(expenseRecordTable.userId, user.id)`. */
  function OwnedBy(rs: seq<ExpenseRecord>, userId: string): (r: seq<ExpenseRecord>)
    ensures forall x :: x in r <==> x in rs && Matches(x.userId, userId)
  {
    Filter(rs, (x: ExpenseRecord) => Matches(x.userId, userId))
  }

  // ---------------------------------------------------------------------------------------
  // Card summary

  datatype CardData = CardData(totalExpense: int, totalDays: int, averagePerDay: real)

  /** `MIN(expense_date)`: None for no rows, else the calendar-earliest date among them. */
  function EarliestDate(rs: seq<ExpenseRecord>): (r: Option<CivilDate>)
    ensures r.None? <==> rs == []
    ensures r.Some? ==> exists i :: 0 <= i < |rs| && rs[i].expenseDate == r.value
    ensures r.Some? ==> forall i :: 0 <= i < |rs| ==> NotAfter(r.value, rs[i].expenseDate)
  {
    if rs == [] then None
    else
      var n := |rs| - 1;
      var last := rs[n].expenseDate;
      match EarliestDate(rs[..n])
      case None => Some(last)
      case Some(e) => if NotAfter(e, last) then Some(e) else Some(last)
  }

  /** n is `Math.max(Math.ceil(elapsed / day), 1)`: the whole days needed to cover the elapsed
      time, and at least one. */
  predicate IsTotalDays(elapsed: int, n: int) {
    n >= 1 && elapsed <= n * DayMs && (n == 1 || (n - 1) * DayMs < elapsed)
  }

  /** `Math.max(Math.ceil(elapsed / (1000 * 3600 * 24)), 1)`. */
  function TotalDays(elapsed: int): (n: int)
    ensures IsTotalDays(elapsed, n)
  {
    var c := Paging.CeilDiv(elapsed, DayMs);
    if c >= 1 then c else 1
  }

  /** `total / n`, exactly. */
  function Average(total: int, n: int): (a: real)
    requires n >= 1
    ensures a * (n as real) == total as real
  {
    total as real / n as real
  }

  /** The card's figures over a user's records. `SUM` and `MIN` of no rows are NULL, which
      gives the all-zero answer. Over some rows the sum arrives as a numeric text, which is
      truthy even when it spells zero, so the guard lets every non-empty selection through;
      the days are then counted since the earliest date, read back as UTC midnight. */
  function CardOf(mine: seq<ExpenseRecord>, now: int): (c: CardData)
    ensures mine == [] <==> c.totalDays == 0
    ensures mine == [] ==> c == CardData(0, 0, 0.0)
    ensures mine != [] ==>
      c.totalExpense == SumAmounts(mine)
      && IsTotalDays(now - DayNumber(EarliestDate(mine).value) * DayMs, c.totalDays)
      && c.averagePerDay * (c.totalDays as real) == c.totalExpense as real
  {
    match EarliestDate(mine)
    case None => CardData(0, 0, 0.0)
    case Some(oldest) =>
      var total := SumAmounts(mine);
      var totalDays := TotalDays(now - DayNumber(oldest) * DayMs);
      CardData(total, totalDays, Average(total, totalDays))
  }

  /** A user whose amounts cancel out still has a card with its day count, and a zero
      average. */
  lemma ZeroTotalCard(mine: seq<ExpenseRecord>, now: int)
    requires mine != [] && SumAmounts(mine) == 0
    ensures CardOf(mine, now).totalDays >= 1 && CardOf(mine, now).averagePerDay == 0.0
  {
    var c := CardOf(mine, now);
    assert c.averagePerDay * (c.totalDays as real) == 0.0;
  }

  /** `getDashboardCardData`: 401 without a user id, else success with the card of the user's
      records, never an error. */
  function GetDashboardCardData(records: seq<ExpenseRecord>, userId: string, now: int): (r: Result<CardData>)
    ensures userId == "" <==> r.Fail?
    ensures r.Fail? ==> r.status == 401
    ensures !r.Thrown?
    ensures r.Ok? ==> r.value == CardOf(OwnedBy(records, userId), now)
  {
    if userId == "" then Fail(401, "User is not authenticated")
    else Ok(CardOf(OwnedBy(records, userId), now))
  }

  /** Records of other users never change the card. */
  lemma CardIgnoresOtherUsers(records: seq<ExpenseRecord>, others: seq<ExpenseRecord>, userId: string, now: int)
    requires forall x :: x in others ==> x.userId != Some(userId)
    ensures GetDashboardCardData(records + others, userId, now) == GetDashboardCardData(records, userId, now)
  {
    FilterIgnores(records, others, (x: ExpenseRecord) => Matches(x.userId, userId));
  }

  /** The loop both charts run over the selected records: each (key, amount) is added to an
      insertion-ordered map, creating the entry on first sight, and to a running total. */
  method GroupLoop(items: seq<Item>) returns (groups: seq<Group>, total: int)
    ensures groups == GroupAll(items)
    ensures total == SumAll(items)
  {
    groups := [];
    total := 0;
    var i := 0;
    while i < |items|
      invariant 0 <= i <= |items|
      invariant groups == GroupAll(items[..i])
      invariant total == SumAll(items[..i])
    {
      assert items[..i + 1][..i] == items[..i];
      groups := Add(groups, items[i].0, items[i].1);
      total := total + items[i].1;
      i := i + 1;
    }
    assert items[..|items|] == items;
  }

  // ---------------------------------------------------------------------------------------
  // Bar chart

  datatype DataPoint = DataPoint(date: string, amount: int)

  datatype BarChart = BarChart(
    totalExpense: int,
    averageExpense: real,
    periodsWithData: nat,
    dataPoints: seq<DataPoint>)

  /** The window's first instant: the 1st of the month eleven months back, or January 1st six
      years back, at 07:00 local time. */
  function BarWindowStart(period: PeriodType, today: CivilDate, tz: TzOffset): Option<int> {
    match period
    case Monthly => NewDate(today.year, today.month - 1 - 11, 1, 7, 0, 0, 0, tz)
    case Yearly => NewDate(today.year - 6, 0, 1, 7, 0, 0, 0, tz)
  }

  /** The conditions of the bar chart's `findMany`: the user's record, on or after the start
      (a `date` column against a bound sent as an ISO timestamp compares by its UTC date), the
      selected category and sub-category when given, and below the threshold unless high
      expenses are included. */
  predicate InBarChart(x: ExpenseRecord, userId: string, startDay: int, bq: BarChartQuery) {
    Matches(x.userId, userId)
    && startDay <= DayNumber(x.expenseDate)
    && (Truthy(bq.selectedCategory) ==> Matches(x.categoryId, bq.selectedCategory.value))
    && (Truthy(bq.selectedSubCategory) ==> Matches(x.subCategoryId, bq.selectedSubCategory.value))
    && (!bq.isIncludeHighExpenseRecord ==> BelowThreshold(x))
  }

  function BarRecords(records: seq<ExpenseRecord>, userId: string, startDay: int, bq: BarChartQuery): (r: seq<ExpenseRecord>)
    ensures forall x :: x in r <==> x in records && InBarChart(x, userId, startDay, bq)
  {
    Filter(records, (x: ExpenseRecord) => InBarChart(x, userId, startDay, bq))
  }

  /** The bucket of a record: `${getFullYear()}` or `${getFullYear()}-${getMonth() + 1}` of
      its date read back as UTC midnight and seen in local time. */
  function BucketKey(x: ExpenseRecord, period: PeriodType, tz: TzOffset): string {
    var d := LocalDateOfUtcMidnight(x.expenseDate, tz);
    match period
    case Yearly => IntToString(d.year)
    case Monthly => MonthKey(d.year, d.month)
  }

  function MonthKey(year: int, month: int): string {
    IntToString(year) + "-" + IntToString(month)
  }

  function BarItems(rs: seq<ExpenseRecord>, period: PeriodType, tz: TzOffset): (items: seq<Item>)
    ensures |items| == |rs|
    ensures forall i :: 0 <= i < |rs| ==> items[i] == (BucketKey(rs[i], period, tz), rs[i].amount)
  {
    seq(|rs|, i requires 0 <= i < |rs| => (BucketKey(rs[i], period, tz), rs[i].amount))
  }

  /** The data points: one per map entry, in the map's order. */
  function Points(groups: seq<Group>): (ps: seq<DataPoint>)
    ensures |ps| == |groups|
    ensures forall i :: 0 <= i < |groups| ==> ps[i] == DataPoint(groups[i].key, groups[i].total)
  {
    seq(|groups|, i requires 0 <= i < |groups| => DataPoint(groups[i].key, groups[i].total))
  }

  /** The response body built from the finished map and running total. */
  function BarChartFrom(groups: seq<Group>, total: int): BarChart {
    BarChart(total, if |groups| == 0 then 0.0 else Average(total, |groups|), |groups|, Points(groups))
  }

  /** The answer once the records are selected: 404 "No data" when there are none, else their
      grouped sums. */
  function BarFromRecords(expenses: seq<ExpenseRecord>, period: PeriodType, tz: TzOffset): Result<BarChart> {
    if expenses == [] then Fail(404, "No data")
    else
      var items := BarItems(expenses, period, tz);
      Ok(BarChartFrom(GroupAll(items), SumAll(items)))
  }

  /** What `getDashboardBarchart` answers, in the order it checks: authentication, the query
      (400 when it does not parse), the window, the matching records (404 "No data" when there
      are none), and then the grouped sums. */
  function BarChartSpec(records: seq<ExpenseRecord>, userId: string, q: Query, today: CivilDate, tz: TzOffset): Result<BarChart> {
    if userId == "" then Fail(401, "User is not authenticated")
    else match DecodeBarChartQuery(q)
      case None => Fail(400, "Invalid query parameter.")
      case Some(bq) =>
        match BarWindowStart(bq.periodType, today, tz)
        case None => Thrown("Invalid time value")
        case Some(start) => BarFromRecords(BarRecords(records, userId, UtcDay(start), bq), bq.periodType, tz)
  }

  /** `getDashboardBarchart`: the grouping loop fills an insertion-ordered map and a running
      total. */
  method GetDashboardBarchart(records: seq<ExpenseRecord>, userId: string, q: Query, today: CivilDate, tz: TzOffset)
    returns (r: Result<BarChart>)
    ensures r == BarChartSpec(records, userId, q, today, tz)
  {
    if userId == "" {
      return Fail(401, "User is not authenticated");
    }
    var parsed := DecodeBarChartQuery(q);
    if parsed.None? {
      return Fail(400, "Invalid query parameter.");
    }
    var bq := parsed.value;
    var start := BarWindowStart(bq.periodType, today, tz);
    if start.None? {
      return Thrown("Invalid time value");
    }
    var expenses := BarRecords(records, userId, UtcDay(start.value), bq);
    if expenses == [] {
      return Fail(404, "No data");
    }
    var groupedMap, totalExpense := GroupLoop(BarItems(expenses, bq.periodType, tz));
    r := Ok(BarChartFrom(groupedMap, totalExpense));
  }

  function PointSum(ps: seq<DataPoint>): int {
    if ps == [] then 0 else ps[0].amount + PointSum(ps[1..])
  }

  lemma {:induction false} PointSumOfGroups(groups: seq<Group>)
    ensures PointSum(Points(groups)) == Totals(groups)
  {
    if groups != [] {
      PointSumOfGroups(groups[1..]);
      assert Points(groups)[1..] == Points(groups[1..]);
    }
  }

  lemma {:induction false} ItemsSum(rs: seq<ExpenseRecord>, period: PeriodType, tz: TzOffset)
    ensures SumAll(BarItems(rs, period, tz)) == SumAmounts(rs)
  {
    if rs != [] {
      var n := |rs| - 1;
      ItemsSum(rs[..n], period, tz);
      assert BarItems(rs, period, tz)[..n] == BarItems(rs[..n], period, tz);
    }
  }

  /** Some data point is labelled k. */
  predicate HasDate(ps: seq<DataPoint>, k: string) {
    exists i :: 0 <= i < |ps| && ps[i].date == k
  }

  /** Some selected record falls in bucket k. */
  predicate HasBucket(rs: seq<ExpenseRecord>, period: PeriodType, tz: TzOffset, k: string) {
    exists x :: x in rs && BucketKey(x, period, tz) == k
  }

  lemma GroupAllNonEmpty(items: seq<Item>)
    requires items != []
    ensures |GroupAll(items)| >= 1
  {
    GroupAllKeys(items);
    assert ItemsHaveKey(items, items[0].0);
    assert HasKey(GroupAll(items), items[0].0);
  }

  /** The totals: the total is the sum of the selected records' amounts, the data points add up
      to it, there is at least one point, and the average is the total spread over the buckets
      that have data (`Average` times the count gives back the total). */
  lemma BarChartTotals(expenses: seq<ExpenseRecord>, period: PeriodType, tz: TzOffset)
    requires expenses != []
    ensures BarFromRecords(expenses, period, tz).Ok?
    ensures var c := BarFromRecords(expenses, period, tz).value;
      && c.totalExpense == SumAmounts(expenses)
      && PointSum(c.dataPoints) == c.totalExpense
      && c.periodsWithData == |c.dataPoints| >= 1
      && c.averageExpense == Average(c.totalExpense, c.periodsWithData)
  {
    var items := BarItems(expenses, period, tz);
    ItemsSum(expenses, period, tz);
    GroupAllSums(items);
    PointSumOfGroups(GroupAll(items));
    GroupAllNonEmpty(items);
  }

  /** The buckets: one data point per distinct bucket key among the selected records, each
      holding the sum of the amounts of the records in that bucket. */
  lemma BarChartBuckets(expenses: seq<ExpenseRecord>, period: PeriodType, tz: TzOffset)
    requires expenses != []
    ensures BarFromRecords(expenses, period, tz).Ok?
    ensures var ps := BarFromRecords(expenses, period, tz).value.dataPoints;
      var items := BarItems(expenses, period, tz);
      && (forall i, j :: 0 <= i < j < |ps| ==> ps[i].date != ps[j].date)
      && (forall k :: HasDate(ps, k) <==> HasBucket(expenses, period, tz, k))
      && (forall i :: 0 <= i < |ps| ==> ps[i].amount == SumOfKey(items, ps[i].date))
  {
    var items := BarItems(expenses, period, tz);
    var g := GroupAll(items);
    assert BarFromRecords(expenses, period, tz).value.dataPoints == Points(g);
    GroupAllKeys(items);
    GroupAllTotals(items);
    forall k
      ensures HasDate(Points(g), k) <==> HasBucket(expenses, period, tz, k)
    {
      BucketPresent(expenses, period, tz, k);
    }
  }

  /** A bucket has a data point exactly when some selected record falls in it. */
  lemma BucketPresent(expenses: seq<ExpenseRecord>, period: PeriodType, tz: TzOffset, k: string)
    ensures HasDate(Points(GroupAll(BarItems(expenses, period, tz))), k) <==> HasBucket(expenses, period, tz, k)
  {
    var items := BarItems(expenses, period, tz);
    var g := GroupAll(items);
    var ps := Points(g);
    GroupAllKeys(items);
    if HasBucket(expenses, period, tz, k) {
      var x :| x in expenses && BucketKey(x, period, tz) == k;
      var i :| 0 <= i < |expenses| && expenses[i] == x;
      assert items[i].0 == k;
      assert ItemsHaveKey(items, k);
      var j :| 0 <= j < |g| && g[j].key == k;
      assert ps[j].date == k;
    }
    if HasDate(ps, k) {
      var i :| 0 <= i < |ps| && ps[i].date == k;
      assert HasKey(g, k);
      var t :| 0 <= t < |items| && items[t].0 == k;
      assert expenses[t] in expenses;
    }
  }

  /** The order: data points come in the order in which their buckets first appear among the
      selected records. */
  lemma BarChartOrder(expenses: seq<ExpenseRecord>, period: PeriodType, tz: TzOffset)
    requires expenses != []
    ensures BarFromRecords(expenses, period, tz).Ok?
    ensures var ps := BarFromRecords(expenses, period, tz).value.dataPoints;
      var items := BarItems(expenses, period, tz);
      forall i, j :: 0 <= i < j < |ps| ==> FirstIndex(items, ps[i].date) < FirstIndex(items, ps[j].date)
  {
    GroupAllOrder(BarItems(expenses, period, tz));
  }

  /** The bar chart fails with 404 exactly when no record passes the filter (given that the
      user is known, the query parses and the window start is a valid time). */
  lemma BarChartNoData(records: seq<ExpenseRecord>, userId: string, q: Query, today: CivilDate, tz: TzOffset)
    requires userId != "" && DecodeBarChartQuery(q).Some?
    requires BarWindowStart(DecodeBarChartQuery(q).value.periodType, today, tz).Some?
    ensures var bq := DecodeBarChartQuery(q).value;
      var start := BarWindowStart(bq.periodType, today, tz).value;
      (BarChartSpec(records, userId, q, today, tz) == Fail(404, "No data"))
        <==> !(exists x :: x in records && InBarChart(x, userId, UtcDay(start), bq))
  {
    var bq := DecodeBarChartQuery(q).value;
    var start := BarWindowStart(bq.periodType, today, tz).value;
    var expenses := BarRecords(records, userId, UtcDay(start), bq);
    if expenses != [] {
      assert expenses[0] in expenses;
    }
  }

  /** For an authenticated user, the answer is 400 exactly when the query does not parse. */
  lemma BarChartBadQuery(records: seq<ExpenseRecord>, userId: string, q: Query, today: CivilDate, tz: TzOffset)
    requires userId != ""
    ensures DecodeBarChartQuery(q).None? <==> BarChartSpec(records, userId, q, today, tz) == Fail(400, "Invalid query parameter.")
  {
  }

  /** A period other than the two of the enum, such as "weekly", does not parse. */
  lemma WeeklyIsRejected(q: Query)
    requires Param(q, "periodType") == Some(Text("weekly"))
    ensures DecodeBarChartQuery(q).None?
  {
  }

  /** Records of other users never change the bar chart. */
  lemma BarChartIgnoresOtherUsers(records: seq<ExpenseRecord>, others: seq<ExpenseRecord>, userId: string,
                                  q: Query, today: CivilDate, tz: TzOffset)
    requires forall x :: x in others ==> x.userId != Some(userId)
    ensures BarChartSpec(records + others, userId, q, today, tz) == BarChartSpec(records, userId, q, today, tz)
  {
    if userId != "" && DecodeBarChartQuery(q).Some? {
      var bq := DecodeBarChartQuery(q).value;
      match BarWindowStart(bq.periodType, today, tz)
      case None =>
      case Some(start) =>
        FilterIgnores(records, others, (x: ExpenseRecord) => InBarChart(x, userId, UtcDay(start), bq));
    }
  }

  /** The monthly window starts on the 1st of the month eleven months before the current one,
      rolling back across the year end; the yearly one on January 1st six years back. */
  lemma BarWindowStartDate(today: CivilDate, tz: TzOffset)
    requires today.year >= 106
    ensures BarWindowStart(Monthly, today, tz)
         == LocalInstant(MonthsBack(today.year, today.month, 11), 7, 0, 0, 0, tz)
    ensures BarWindowStart(Yearly, today, tz) == LocalInstant(Date(today.year - 6, 1, 1), 7, 0, 0, 0, tz)
  {
    MonthlyWindowStart(today, tz);
    YearlyWindowStart(today, tz);
  }

  lemma MonthlyWindowStart(today: CivilDate, tz: TzOffset)
    requires today.year >= 106
    ensures BarWindowStart(Monthly, today, tz)
         == LocalInstant(MonthsBack(today.year, today.month, 11), 7, 0, 0, 0, tz)
  {
    MonthlyStartOf(today.year, today.month, tz);
  }

  lemma MonthlyStartOf(y: int, m: int, tz: TzOffset)
    requires y >= 106 && 1 <= m <= 12
    ensures NewDate(y, m - 1 - 11, 1, 7, 0, 0, 0, tz) == LocalInstant(MonthsBack(y, m, 11), 7, 0, 0, 0, tz)
  {
    var start := MonthsBack(y, m, 11);
    var day := MakeDay(y, m - 1 - 11, 1);
    assert day == DayNumber(start) by {
      MakeDayMonthsBack(y, m);
    }
    assert NewDate(y, m - 1 - 11, 1, 7, 0, 0, 0, tz) == Clip(day * DayMs + MakeTime(7, 0, 0, 0) - tz) by {
      assert FullYear(y) == y;
    }
    assert LocalInstant(start, 7, 0, 0, 0, tz) == Clip(DayNumber(start) * DayMs + MakeTime(7, 0, 0, 0) - tz);
  }

  lemma YearlyWindowStart(today: CivilDate, tz: TzOffset)
    requires today.year >= 106
    ensures BarWindowStart(Yearly, today, tz) == LocalInstant(Date(today.year - 6, 1, 1), 7, 0, 0, 0, tz)
  {
    assert FullYear(today.year - 6) == today.year - 6;
    NewDateInRange(today.year - 6, 1, 1, 7, 0, 0, 0, tz);
  }

  /** In a zone from UTC-16:59 to UTC+7 the 07:00 start falls on the same UTC date, so the
      comparison with the `date` column starts the window on exactly that date. */
  lemma SevenOClockUtcDay(d: Date, tz: TzOffset)
    requires IsValid(d) && -17 * HourMs < tz <= 7 * HourMs
    requires LocalInstant(d, 7, 0, 0, 0, tz).Some?
    ensures UtcDay(LocalInstant(d, 7, 0, 0, 0, tz).value) == DayNumber(d)
  {
    UtcDayOf(DayNumber(d), 7 * HourMs - tz);
  }

  /** Two records share a monthly bucket exactly when their dates, seen locally, fall in the
      same year and month: the unpadded `Y-M` key is unambiguous. */
  lemma MonthKeyInjective(y1: nat, m1: nat, y2: nat, m2: nat)
    ensures MonthKey(y1, m1) == MonthKey(y2, m2) <==> y1 == y2 && m1 == m2
  {
    if MonthKey(y1, m1) == MonthKey(y2, m2) {
      SplitMonthKey(y1, m1);
      SplitMonthKey(y2, m2);
      assert NatToString(y1) == NatToString(y2) && NatToString(m1) == NatToString(m2);
      assert DigitsValue(NatToString(y1)) == y1 && DigitsValue(NatToString(y2)) == y2;
    }
  }

  lemma NatToStringNoDash(n: nat)
    ensures '-' !in NatToString(n)
  {
  }

  lemma SplitMonthKey(y: nat, m: nat)
    ensures Split(MonthKey(y, m), '-') == [NatToString(y), NatToString(m)]
  {
    var parts := [NatToString(y), NatToString(m)];
    NatToStringNoDash(y);
    NatToStringNoDash(m);
    assert parts[1..] == [NatToString(m)];
    assert Join(parts, '-') == MonthKey(y, m);
    SplitJoin(parts, '-');
  }

  // ---------------------------------------------------------------------------------------
  // Pie chart

  datatype PieSlice = PieSlice(sliceLabel: string, amount: int, percentage: real, count: nat)

  datatype PieChart = PieChart(totalExpense: int, pieChartData: seq<PieSlice>)

  /** `parseInt(req.query.year as string)`: the raw parameter, not the schema's decoded value;
      None stands for NaN, which an absent parameter gives. */
  function YearParam(q: Query): (r: Option<int>)
    ensures Param(q, "year").None? ==> r.None?
  {
    match Param(q, "year")
    case Some(Text(s)) => JsParseInt(s)
    case _ => None
  }

  /** `req.query.month ? parseInt(req.query.month as string) : undefined`, then tested for
      truthiness by the window: None when the month is absent, empty, NaN or zero. */
  function MonthParam(q: Query): (r: Option<int>)
    ensures r.Some? ==> r.value != 0
    ensures r.Some? <==> (exists s :: Param(q, "month") == Some(Text(s)) && s != ""
                                    && JsParseInt(s).Some? && JsParseInt(s).value != 0)
  {
    match Param(q, "month")
    case Some(Text(s)) =>
      if s != "" && JsParseInt(s).Some? && JsParseInt(s).value != 0 then JsParseInt(s) else None
    case _ => None
  }

  /** The window's first and last instants: the given month from its 1st at 07:00 to its last
      day at hour 30 (06:59:59.999 of the next day), or the whole year likewise. An Invalid Date
      is None. */
  function PieWindow(year: Option<int>, month: Option<int>, tz: TzOffset): (Option<int>, Option<int>) {
    if year.None? then (None, None)
    else if month.Some? then
      (NewDate(year.value, month.value - 1, 1, 7, 0, 0, 0, tz),
       NewDate(year.value, month.value, 0, 30, 59, 59, 999, tz))
    else
      (NewDate(year.value, 0, 1, 7, 0, 0, 0, tz),
       NewDate(year.value, 11, 31, 30, 59, 59, 999, tz))
  }

  predicate InPieChart(x: ExpenseRecord, userId: string, startDay: int, endDay: int, includeHigh: bool) {
    Matches(x.userId, userId)
    && startDay <= DayNumber(x.expenseDate) <= endDay
    && (!includeHigh ==> BelowThreshold(x))
  }

  function PieRecords(records: seq<ExpenseRecord>, userId: string, startDay: int, endDay: int, includeHigh: bool): (r: seq<ExpenseRecord>)
    ensures forall x :: x in r <==> x in records && InPieChart(x, userId, startDay, endDay, includeHigh)
  {
    Filter(records, (x: ExpenseRecord) => InPieChart(x, userId, startDay, endDay, includeHigh))
  }

  /** The name a record is grouped under: that of the category or sub-category its id refers
      to, by a left join on the id, and "" when there is none. */
  function GroupName(x: ExpenseRecord, groupBy: GroupBy, categories: map<string, Category>,
                     subCategories: map<string, SubCategory>): string {
    match groupBy
    case ByCategory =>
      if x.categoryId.Some? && x.categoryId.value in categories then categories[x.categoryId.value].name else ""
    case BySubCategory =>
      if x.subCategoryId.Some? && x.subCategoryId.value in subCategories
      then subCategories[x.subCategoryId.value].name else ""
  }

  function PieItems(rs: seq<ExpenseRecord>, groupBy: GroupBy, categories: map<string, Category>,
                    subCategories: map<string, SubCategory>): (items: seq<Item>)
    ensures |items| == |rs|
    ensures forall i :: 0 <= i < |rs| ==>
      items[i] == (GroupName(rs[i], groupBy, categories, subCategories), rs[i].amount)
  {
    seq(|rs|, i requires 0 <= i < |rs| => (GroupName(rs[i], groupBy, categories, subCategories), rs[i].amount))
  }

  function TotalOf(g: Group): int {
    g.total
  }

  function CountOf(g: Group): int {
    g.count
  }

  /** `total / totalExpense * 100` when the grand total is positive, else 0. */
  function Percentage(total: int, grand: int): real {
    if grand > 0 then (total as real) * 100.0 / (grand as real) else 0.0
  }

  function Slices(gs: seq<Group>, grand: int): (r: seq<PieSlice>)
    ensures |r| == |gs|
    ensures forall i :: 0 <= i < |gs| ==>
      r[i] == PieSlice(gs[i].key, gs[i].total, Percentage(gs[i].total, grand), gs[i].count)
  {
    seq(|gs|, i requires 0 <= i < |gs| =>
      PieSlice(gs[i].key, gs[i].total, Percentage(gs[i].total, grand), gs[i].count))
  }

  /** The response body: the map's entries sorted by total, largest first, each with its
      percentage of the grand total. */
  function PieChartFrom(groups: seq<Group>, total: int): PieChart {
    PieChart(total, Slices(SortDesc(groups, TotalOf), total))
  }

  /** The answer once the records are selected: 404 "No Data" when there are none, else the
      grouped slices. */
  function PieFromRecords(rs: seq<ExpenseRecord>, groupBy: GroupBy, categories: map<string, Category>,
                          subCategories: map<string, SubCategory>): Result<PieChart> {
    if rs == [] then Fail(404, "No Data")
    else
      var items := PieItems(rs, groupBy, categories, subCategories);
      Ok(PieChartFrom(GroupAll(items), SumAll(items)))
  }

  /** What `getDashboardPiechart` answers, in the order it checks: authentication, the query
      (404 when it does not parse), the window (thrown when either bound is an Invalid Date),
      the matching records (404 "No Data" when there are none), and then the slices. */
  function PieChartSpec(records: seq<ExpenseRecord>, userId: string, q: Query, loadYear: int,
                        categories: map<string, Category>, subCategories: map<string, SubCategory>,
                        tz: TzOffset): Result<PieChart> {
    if userId == "" then Fail(401, "User is not authenticated")
    else match DecodePieChartQuery(q, loadYear)
      case None => Fail(404, "Invalid query parameter.")
      case Some(pq) => PieOfWindow(records, userId, pq, PieWindow(YearParam(q), MonthParam(q), tz),
                                   categories, subCategories)
  }

  /** The handler as its schema intends it: the window's year is the decoded `year`, whose
      default is the year the module was loaded in, rather than the raw parameter. */
  function PieChartIntended(records: seq<ExpenseRecord>, userId: string, q: Query, loadYear: int,
                            categories: map<string, Category>, subCategories: map<string, SubCategory>,
                            tz: TzOffset): Result<PieChart> {
    if userId == "" then Fail(401, "User is not authenticated")
    else match DecodePieChartQuery(q, loadYear)
      case None => Fail(404, "Invalid query parameter.")
      case Some(pq) => PieOfWindow(records, userId, pq, PieWindow(JsParseInt(pq.year), MonthParam(q), tz),
                                   categories, subCategories)
  }

  /** The answer once the query has decoded and the window is computed. */
  function PieOfWindow(records: seq<ExpenseRecord>, userId: string, pq: PieChartQuery, window: (Option<int>, Option<int>),
                       categories: map<string, Category>, subCategories: map<string, SubCategory>): Result<PieChart> {
    match window
    case (Some(start), Some(end)) =>
      PieFromRecords(PieRecords(records, userId, UtcDay(start), UtcDay(end), pq.isIncludeHighExpenseRecordPieChart),
                     pq.groupBy, categories, subCategories)
    case _ => Thrown("Invalid time value")
  }

  /** As written, a query without `year` passes the schema, but `parseInt(undefined)` is NaN,
      the window is an Invalid Date and the handler throws. */
  lemma PieChartAbsentYearThrows(records: seq<ExpenseRecord>, userId: string, q: Query, loadYear: int,
                                 categories: map<string, Category>, subCategories: map<string, SubCategory>,
                                 tz: TzOffset)
    requires userId != "" && DecodePieChartQuery(q, loadYear).Some? && "year" !in q
    ensures PieChartSpec(records, userId, q, loadYear, categories, subCategories, tz) == Thrown("Invalid time value")
  {
  }

  /** As intended, a query without `year` is answered as if it named the load year. */
  lemma PieChartAbsentYearIsLoadYear(records: seq<ExpenseRecord>, userId: string, q: Query, loadYear: int,
                                     categories: map<string, Category>, subCategories: map<string, SubCategory>,
                                     tz: TzOffset)
    requires "year" !in q
    ensures PieChartIntended(records, userId, q, loadYear, categories, subCategories, tz)
         == PieChartSpec(records, userId, q["year" := Text(IntToString(loadYear))], loadYear, categories, subCategories, tz)
  {
    AddedYear(q, loadYear);
  }

  lemma AddedYear(q: Query, loadYear: int)
    requires "year" !in q
    ensures var q' := q["year" := Text(IntToString(loadYear))];
      DecodePieChartQuery(q', loadYear) == DecodePieChartQuery(q, loadYear)
      && YearParam(q') == Some(loadYear) && MonthParam(q') == MonthParam(q)
      && (DecodePieChartQuery(q, loadYear).Some? ==> DecodePieChartQuery(q, loadYear).value.year == IntToString(loadYear))
  {
    var q' := q["year" := Text(IntToString(loadYear))];
    assert Param(q', "month") == Param(q, "month");
    assert Param(q', "groupBy") == Param(q, "groupBy");
    assert Param(q', "isIncludeHighExpenseRecordPieChart") == Param(q, "isIncludeHighExpenseRecordPieChart");
    ParseIntOfIntToString(loadYear);
  }

  /** `getDashboardPiechart`: the grouping loop fills an insertion-ordered map of totals and
      counts and a running total. */
  method GetDashboardPiechart(records: seq<ExpenseRecord>, userId: string, q: Query, loadYear: int,
                              categories: map<string, Category>, subCategories: map<string, SubCategory>,
                              tz: TzOffset)
    returns (r: Result<PieChart>)
    ensures r == PieChartSpec(records, userId, q, loadYear, categories, subCategories, tz)
  {
    if userId == "" {
      return Fail(401, "User is not authenticated");
    }
    var parsed := DecodePieChartQuery(q, loadYear);
    if parsed.None? {
      return Fail(404, "Invalid query parameter.");
    }
    var pq := parsed.value;
    var window := PieWindow(YearParam(q), MonthParam(q), tz);
    if window.0.None? || window.1.None? {
      return Thrown("Invalid time value");
    }
    var rs := PieRecords(records, userId, UtcDay(window.0.value), UtcDay(window.1.value),
                         pq.isIncludeHighExpenseRecordPieChart);
    if rs == [] {
      return Fail(404, "No Data");
    }
    var groupMap, totalExpense := GroupLoop(PieItems(rs, pq.groupBy, categories, subCategories));
    r := Ok(PieChartFrom(groupMap, totalExpense));
  }

  function SliceAmounts(ss: seq<PieSlice>): int {
    if ss == [] then 0 else ss[0].amount + SliceAmounts(ss[1..])
  }

  function SliceCounts(ss: seq<PieSlice>): int {
    if ss == [] then 0 else ss[0].count + SliceCounts(ss[1..])
  }

  function SlicePercentages(ss: seq<PieSlice>): real {
    if ss == [] then 0.0 else ss[0].percentage + SlicePercentages(ss[1..])
  }

  lemma {:induction false} SlicesSums(gs: seq<Group>, grand: int)
    ensures SliceAmounts(Slices(gs, grand)) == SumBy(gs, TotalOf)
    ensures SliceCounts(Slices(gs, grand)) == SumBy(gs, CountOf)
  {
    if gs != [] {
      SlicesSums(gs[1..], grand);
      assert Slices(gs, grand)[1..] == Slices(gs[1..], grand);
    }
  }

  /** The percentages of the parts add up to the percentage of the whole. */
  lemma {:induction false} SlicesPercentages(gs: seq<Group>, grand: int)
    ensures SlicePercentages(Slices(gs, grand)) == Percentage(SumBy(gs, TotalOf), grand)
  {
    if gs != [] {
      SlicesPercentages(gs[1..], grand);
      assert Slices(gs, grand)[1..] == Slices(gs[1..], grand);
      PercentageAdd(gs[0].total, SumBy(gs[1..], TotalOf), grand);
    }
  }

  lemma PercentageAdd(a: int, b: int, grand: int)
    ensures Percentage(a, grand) + Percentage(b, grand) == Percentage(a + b, grand)
  {
  }

  lemma {:induction false} SumByTotals(gs: seq<Group>)
    ensures SumBy(gs, TotalOf) == Totals(gs)
    ensures SumBy(gs, CountOf) == Counts(gs)
  {
    if gs != [] {
      SumByTotals(gs[1..]);
    }
  }

  lemma {:induction false} PieItemsSum(rs: seq<ExpenseRecord>, groupBy: GroupBy, categories: map<string, Category>,
                                       subCategories: map<string, SubCategory>)
    ensures SumAll(PieItems(rs, groupBy, categories, subCategories)) == SumAmounts(rs)
  {
    if rs != [] {
      var n := |rs| - 1;
      PieItemsSum(rs[..n], groupBy, categories, subCategories);
      assert PieItems(rs, groupBy, categories, subCategories)[..n] == PieItems(rs[..n], groupBy, categories, subCategories);
    }
  }

  /** The totals: the total is the sum of the selected records' amounts, the slices' amounts
      add up to it and their counts to the number of selected records. */
  lemma PieChartTotals(rs: seq<ExpenseRecord>, groupBy: GroupBy, categories: map<string, Category>,
                       subCategories: map<string, SubCategory>)
    requires rs != []
    ensures PieFromRecords(rs, groupBy, categories, subCategories).Ok?
    ensures var c := PieFromRecords(rs, groupBy, categories, subCategories).value;
      && c.totalExpense == SumAmounts(rs)
      && SliceAmounts(c.pieChartData) == c.totalExpense
      && SliceCounts(c.pieChartData) == |rs|
  {
    var items := PieItems(rs, groupBy, categories, subCategories);
    var g := GroupAll(items);
    var sorted := SortDesc(g, TotalOf);
    PieItemsSum(rs, groupBy, categories, subCategories);
    GroupAllSums(items);
    SortDescSum(g, TotalOf, TotalOf);
    SortDescSum(g, TotalOf, CountOf);
    SumByTotals(g);
    SlicesSums(sorted, SumAll(items));
  }

  lemma PieChartFromPercentages(groups: seq<Group>, total: int)
    requires Totals(groups) == total
    ensures var c := PieChartFrom(groups, total);
      && (total > 0 ==> SlicePercentages(c.pieChartData) == 100.0)
      && (total <= 0 ==> forall i :: 0 <= i < |c.pieChartData| ==> c.pieChartData[i].percentage == 0.0)
  {
    if total > 0 {
      var sorted := SortDesc(groups, TotalOf);
      SortDescSum(groups, TotalOf, TotalOf);
      SumByTotals(groups);
      SlicesPercentages(sorted, total);
      assert SumBy(sorted, TotalOf) == total;
      PercentageWhole(total);
    }
  }

  lemma PercentageWhole(grand: int)
    requires grand > 0
    ensures Percentage(grand, grand) == 100.0
  {
  }

  /** The percentages add up to 100 when the total is positive, and are all 0 otherwise. */
  lemma PieChartPercentages(rs: seq<ExpenseRecord>, groupBy: GroupBy, categories: map<string, Category>,
                            subCategories: map<string, SubCategory>)
    requires rs != []
    ensures PieFromRecords(rs, groupBy, categories, subCategories).Ok?
    ensures var c := PieFromRecords(rs, groupBy, categories, subCategories).value;
      && (c.totalExpense > 0 ==> SlicePercentages(c.pieChartData) == 100.0)
      && (c.totalExpense <= 0 ==> forall i :: 0 <= i < |c.pieChartData| ==> c.pieChartData[i].percentage == 0.0)
  {
    var items := PieItems(rs, groupBy, categories, subCategories);
    GroupAllSums(items);
    PieChartFromPercentages(GroupAll(items), SumAll(items));
  }

  /** The order: slices come in non-increasing order of amount; each slice is one map entry
      (a name, its sum and its count), and among entries of equal amount the sort keeps the
      map's order, which is the order in which the names first appeared. */
  lemma PieChartOrder(rs: seq<ExpenseRecord>, groupBy: GroupBy, categories: map<string, Category>,
                      subCategories: map<string, SubCategory>)
    requires rs != []
    ensures PieFromRecords(rs, groupBy, categories, subCategories).Ok?
    ensures var c := PieFromRecords(rs, groupBy, categories, subCategories).value;
      var items := PieItems(rs, groupBy, categories, subCategories);
      var sorted := SortDesc(GroupAll(items), TotalOf);
      && (forall i, j :: 0 <= i < j < |c.pieChartData| ==> c.pieChartData[i].amount >= c.pieChartData[j].amount)
      && |c.pieChartData| == |sorted|
      && (forall i :: 0 <= i < |sorted| ==>
            c.pieChartData[i].sliceLabel == sorted[i].key && c.pieChartData[i].amount == sorted[i].total
            && c.pieChartData[i].count == sorted[i].count)
      && (forall v :: WithKey(sorted, TotalOf, v) == WithKey(GroupAll(items), TotalOf, v))
      && InFirstAppearanceOrder(items, GroupAll(items))
  {
    var items := PieItems(rs, groupBy, categories, subCategories);
    var g := GroupAll(items);
    var sorted := SortDesc(g, TotalOf);
    GroupAllOrder(items);
    SortDescSorted(g, TotalOf);
    forall v
      ensures WithKey(sorted, TotalOf, v) == WithKey(g, TotalOf, v)
    {
      SortDescStable(g, TotalOf, v);
    }
  }

  /** The slices: one per distinct group name among the selected records, holding the sum and
      the number of the records grouped under it. */
  lemma PieChartGroups(rs: seq<ExpenseRecord>, groupBy: GroupBy, categories: map<string, Category>,
                       subCategories: map<string, SubCategory>)
    requires rs != []
    ensures PieFromRecords(rs, groupBy, categories, subCategories).Ok?
    ensures var items := PieItems(rs, groupBy, categories, subCategories);
      var g := GroupAll(items);
      && DistinctKeys(g)
      && (forall k :: HasKey(g, k) <==> ItemsHaveKey(items, k))
      && (forall j :: 0 <= j < |g| ==> g[j].total == SumOfKey(items, g[j].key) && g[j].count == CountOfKey(items, g[j].key))
  {
    var items := PieItems(rs, groupBy, categories, subCategories);
    GroupAllKeys(items);
    GroupAllTotals(items);
  }

  /** For an authenticated user, a query that does not parse is answered with 404, not 400 as
      in the bar chart, and a 404 with that message means the query did not parse. */
  lemma PieChartBadQuery(records: seq<ExpenseRecord>, userId: string, q: Query, loadYear: int,
                         categories: map<string, Category>, subCategories: map<string, SubCategory>, tz: TzOffset)
    requires userId != ""
    ensures DecodePieChartQuery(q, loadYear).None?
        <==> PieChartSpec(records, userId, q, loadYear, categories, subCategories, tz) == Fail(404, "Invalid query parameter.")
  {
  }

  /** A grouping other than the two of the enum, such as "currency", does not parse. */
  lemma CurrencyGroupingRejected(q: Query, loadYear: int)
    requires Param(q, "groupBy") == Some(Text("currency"))
    ensures DecodePieChartQuery(q, loadYear).None?
  {
  }

  /** The pie chart fails with 404 "No Data" exactly when no record passes the filter. */
  lemma PieChartNoData(records: seq<ExpenseRecord>, userId: string, q: Query, loadYear: int,
                       categories: map<string, Category>, subCategories: map<string, SubCategory>, tz: TzOffset)
    requires userId != "" && DecodePieChartQuery(q, loadYear).Some?
    requires PieWindow(YearParam(q), MonthParam(q), tz).0.Some? && PieWindow(YearParam(q), MonthParam(q), tz).1.Some?
    ensures var pq := DecodePieChartQuery(q, loadYear).value;
      var w := PieWindow(YearParam(q), MonthParam(q), tz);
      var inWindow := (x: ExpenseRecord) =>
        InPieChart(x, userId, UtcDay(w.0.value), UtcDay(w.1.value), pq.isIncludeHighExpenseRecordPieChart);
      (PieChartSpec(records, userId, q, loadYear, categories, subCategories, tz) == Fail(404, "No Data"))
        <==> !(exists x :: x in records && inWindow(x))
  {
    var pq := DecodePieChartQuery(q, loadYear).value;
    var w := PieWindow(YearParam(q), MonthParam(q), tz);
    var rs := PieRecords(records, userId, UtcDay(w.0.value), UtcDay(w.1.value), pq.isIncludeHighExpenseRecordPieChart);
    assert PieChartSpec(records, userId, q, loadYear, categories, subCategories, tz)
        == PieFromRecords(rs, pq.groupBy, categories, subCategories);
    if rs != [] {
      assert rs[0] in rs;
    }
  }

  /** Records of other users never change the pie chart. */
  lemma PieChartIgnoresOtherUsers(records: seq<ExpenseRecord>, others: seq<ExpenseRecord>, userId: string,
                                  q: Query, loadYear: int, categories: map<string, Category>,
                                  subCategories: map<string, SubCategory>, tz: TzOffset)
    requires forall x :: x in others ==> x.userId != Some(userId)
    ensures PieChartSpec(records + others, userId, q, loadYear, categories, subCategories, tz)
         == PieChartSpec(records, userId, q, loadYear, categories, subCategories, tz)
  {
    if userId != "" && DecodePieChartQuery(q, loadYear).Some? {
      var pq := DecodePieChartQuery(q, loadYear).value;
      match PieWindow(YearParam(q), MonthParam(q), tz)
      case (Some(start), Some(end)) =>
        FilterIgnores(records, others,
          (x: ExpenseRecord) => InPieChart(x, userId, UtcDay(start), UtcDay(end), pq.isIncludeHighExpenseRecordPieChart));
      case _ =>
    }
  }

  /** The author's zone, UTC+7. */
  const AuthorZone: TzOffset := 7 * HourMs

  /** In UTC+7 a month's window is exactly the days of that month. */
  lemma PieMonthWindow(y: int, m: int)
    requires y >= 100 && 1 <= m <= 12
    requires PieWindow(Some(y), Some(m), AuthorZone).0.Some? && PieWindow(Some(y), Some(m), AuthorZone).1.Some?
    ensures var w := PieWindow(Some(y), Some(m), AuthorZone);
      UtcDay(w.0.value) == DayNumber(Date(y, m, 1))
      && UtcDay(w.1.value) == DayNumber(Date(y, m, DaysInMonth(y, m)))
  {
    NewDateInRange(y, m, 1, 7, 0, 0, 0, AuthorZone);
    MakeDayMonthEnd(y, m);
    var last := DayNumber(Date(y, m, DaysInMonth(y, m)));
    UtcDayOf(DayNumber(Date(y, m, 1)), 0);
    assert last * DayMs + MakeTime(30, 59, 59, 999) - AuthorZone == last * DayMs + 86_399_999;
    UtcDayOf(last, 86_399_999);
  }

  /** In UTC the same window's end bound falls on the 1st of the following month, which the
      `lte` comparison with the `date` column therefore includes. */
  lemma PieMonthWindowInUtc(y: int, m: int)
    requires y >= 100 && 1 <= m <= 12
    requires PieWindow(Some(y), Some(m), 0).1.Some?
    ensures UtcDay(PieWindow(Some(y), Some(m), 0).1.value) == DayNumber(Date(y, m, DaysInMonth(y, m))) + 1
  {
    MakeDayMonthEnd(y, m);
    var last := DayNumber(Date(y, m, DaysInMonth(y, m)));
    assert last * DayMs + MakeTime(30, 59, 59, 999) == (last + 1) * DayMs + 25_199_999;
    UtcDayOf(last + 1, 25_199_999);
  }

  /** So in UTC+7 a record is in a month's pie chart window exactly when its date lies in that
      month. */
  lemma PieMonthMembership(y: int, m: int, d: CivilDate)
    requires y >= 100 && 1 <= m <= 12
    requires PieWindow(Some(y), Some(m), AuthorZone).0.Some? && PieWindow(Some(y), Some(m), AuthorZone).1.Some?
    ensures var w := PieWindow(Some(y), Some(m), AuthorZone);
      UtcDay(w.0.value) <= DayNumber(d) <= UtcDay(w.1.value) <==> d.year == y && d.month == m
  {
    PieMonthWindow(y, m);
    DayNumberOrder(Date(y, m, 1), d);
    DayNumberOrder(d, Date(y, m, DaysInMonth(y, m)));
  }

  /** A present `month` of 1 to 12 selects that month, and an absent one the whole year. */
  lemma PieMonthChoice(q: Query, m: nat)
    ensures Param(q, "month").None? ==> MonthParam(q).None?
    ensures Param(q, "month") == Some(Text("")) ==> MonthParam(q).None?
    ensures 1 <= m <= 12 && Param(q, "month") == Some(Text(NatToString(m))) ==> MonthParam(q) == Some(m)
  {
    if 1 <= m <= 12 && Param(q, "month") == Some(Text(NatToString(m))) {
      ParseIntOfIntToString(m);
      assert IntToString(m) == NatToString(m);
    }
  }
}
