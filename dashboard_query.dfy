/** The query-string schemas of the dashboard charts (src/types/dashboard.ts). Each field is
    decoded on its own: an optional string accepts an absent value or a single string; an enum
    or a literal union accepts one of its words, and its default stands in for an absent value.
    Any other value (a word outside the set, an array or nested object) fails the whole parse.
    Keys the schema does not name are ignored. */
module DashboardQuery {
  import opened Common

  datatype PeriodType = Monthly | Yearly
  datatype GroupBy = ByCategory | BySubCategory

  datatype BarChartQuery = BarChartQuery(
    selectedCategory: Option<string>,
    selectedSubCategory: Option<string>,
    periodType: PeriodType,
    isIncludeHighExpenseRecord: bool)

  datatype PieChartQuery = PieChartQuery(
    year: string,
    month: Option<string>,
    groupBy: GroupBy,
    isIncludeHighExpenseRecordPieChart: bool)

  /** `z.string().optional()`: None when the parse fails, Some(None) for an absent value. */
  function OptionalString(v: Option<QueryValue>): (r: Option<Option<string>>)
    ensures r.Some? <==> v.None? || v.value.Text?
    ensures r.Some? && v.Some? ==> r.value == Some(v.value.text)
    ensures r.Some? && v.None? ==> r.value.None?
  {
    match v
    case None => Some(None)
    case Some(Text(s)) => Some(Some(s))
    case Some(Structured) => None
  }

  /** `z.string().optional().default(d)`. */
  function StringWithDefault(v: Option<QueryValue>, d: string): (r: Option<string>)
    ensures r.Some? <==> v.None? || v.value.Text?
    ensures r.Some? ==> r.value == (if v.None? then d else v.value.text)
  {
    match v
    case None => Some(d)
    case Some(Text(s)) => Some(s)
    case Some(Structured) => None
  }

  /** `z.enum(["monthly", "yearly"]).default("monthly")`. */
  function DecodePeriodType(v: Option<QueryValue>): (r: Option<PeriodType>)
    ensures v.None? ==> r == Some(Monthly)
    ensures v == Some(Text("monthly")) ==> r == Some(Monthly)
    ensures v == Some(Text("yearly")) ==> r == Some(Yearly)
    ensures r.Some? <==> v.None? || v == Some(Text("monthly")) || v == Some(Text("yearly"))
  {
    match v
    case None => Some(Monthly)
    case Some(Text(s)) =>
      if s == "monthly" then Some(Monthly) else if s == "yearly" then Some(Yearly) else None
    case Some(Structured) => None
  }

  /** `z.enum(["category", "subCategory"]).default("category")`. */
  function DecodeGroupBy(v: Option<QueryValue>): (r: Option<GroupBy>)
    ensures v.None? ==> r == Some(ByCategory)
    ensures v == Some(Text("category")) ==> r == Some(ByCategory)
    ensures v == Some(Text("subCategory")) ==> r == Some(BySubCategory)
    ensures r.Some? <==> v.None? || v == Some(Text("category")) || v == Some(Text("subCategory"))
  {
    match v
    case None => Some(ByCategory)
    case Some(Text(s)) =>
      if s == "category" then Some(ByCategory)
      else if s == "subCategory" then Some(BySubCategory)
      else None
    case Some(Structured) => None
  }

  /** `z.union([z.literal("true"), z.literal("false")]).default("false")`, read as the
      controllers read it: the flag is on exactly when the value is the word "true". */
  function DecodeFlag(v: Option<QueryValue>): (r: Option<bool>)
    ensures r.Some? <==> v.None? || v == Some(Text("true")) || v == Some(Text("false"))
    ensures r == Some(true) <==> v == Some(Text("true"))
  {
    match v
    case None => Some(false)
    case Some(Text(s)) =>
      if s == "true" then Some(true) else if s == "false" then Some(false) else None
    case Some(Structured) => None
  }

  /** `dashboardBarChartQuerySchema.safeParse(req.query)`; None when it fails. */
  function DecodeBarChartQuery(q: Query): (r: Option<BarChartQuery>)
    ensures r.Some? <==>
      OptionalString(Param(q, "selectedCategory")).Some?
      && OptionalString(Param(q, "selectedSubCategory")).Some?
      && DecodePeriodType(Param(q, "periodType")).Some?
      && DecodeFlag(Param(q, "isIncludeHighExpenseRecord")).Some?
    ensures r.Some? ==>
      r.value.selectedCategory == OptionalString(Param(q, "selectedCategory")).value
      && r.value.selectedSubCategory == OptionalString(Param(q, "selectedSubCategory")).value
      && r.value.periodType == DecodePeriodType(Param(q, "periodType")).value
      && r.value.isIncludeHighExpenseRecord == DecodeFlag(Param(q, "isIncludeHighExpenseRecord")).value
  {
    var cat := OptionalString(Param(q, "selectedCategory"));
    var sub := OptionalString(Param(q, "selectedSubCategory"));
    var period := DecodePeriodType(Param(q, "periodType"));
    var flag := DecodeFlag(Param(q, "isIncludeHighExpenseRecord"));
    if cat.Some? && sub.Some? && period.Some? && flag.Some? then
      Some(BarChartQuery(cat.value, sub.value, period.value, flag.value))
    else None
  }

  /** `dashboardPieChartQuerySchema.safeParse(req.query)`. The default year is
      `String(new Date().getFullYear())` evaluated once, when the module is loaded; it is
      passed in as `loadYear`. */
  function DecodePieChartQuery(q: Query, loadYear: int): (r: Option<PieChartQuery>)
    ensures r.Some? <==>
      StringWithDefault(Param(q, "year"), IntToString(loadYear)).Some?
      && OptionalString(Param(q, "month")).Some?
      && DecodeGroupBy(Param(q, "groupBy")).Some?
      && DecodeFlag(Param(q, "isIncludeHighExpenseRecordPieChart")).Some?
    ensures r.Some? ==>
      r.value.year == StringWithDefault(Param(q, "year"), IntToString(loadYear)).value
      && r.value.month == OptionalString(Param(q, "month")).value
      && r.value.groupBy == DecodeGroupBy(Param(q, "groupBy")).value
      && r.value.isIncludeHighExpenseRecordPieChart
         == DecodeFlag(Param(q, "isIncludeHighExpenseRecordPieChart")).value
  {
    var year := StringWithDefault(Param(q, "year"), IntToString(loadYear));
    var month := OptionalString(Param(q, "month"));
    var groupBy := DecodeGroupBy(Param(q, "groupBy"));
    var flag := DecodeFlag(Param(q, "isIncludeHighExpenseRecordPieChart"));
    if year.Some? && month.Some? && groupBy.Some? && flag.Some? then
      Some(PieChartQuery(year.value, month.value, groupBy.value, flag.value))
    else None
  }

  /** An empty query string decodes to the defaults: no category filters, monthly periods,
      high expenses excluded. */
  lemma EmptyBarChartQuery()
    ensures DecodeBarChartQuery(map[]) == Some(BarChartQuery(None, None, Monthly, false))
  {
    assert Param(map[], "periodType").None?;
  }

  /** An empty query string decodes to the year the module was loaded in, no month, grouping
      by category, high expenses excluded. */
  lemma EmptyPieChartQuery(loadYear: int)
    ensures DecodePieChartQuery(map[], loadYear)
         == Some(PieChartQuery(IntToString(loadYear), None, ByCategory, false))
  {
    assert Param(map[], "groupBy").None?;
  }

  /** Keys the schema does not name change nothing, whatever their values. */
  lemma BarChartIgnoresOtherKeys(q: Query, k: string, v: QueryValue)
    requires k !in {"selectedCategory", "selectedSubCategory", "periodType", "isIncludeHighExpenseRecord"}
    ensures DecodeBarChartQuery(q[k := v]) == DecodeBarChartQuery(q)
  {
    assert Param(q[k := v], "selectedCategory") == Param(q, "selectedCategory");
    assert Param(q[k := v], "selectedSubCategory") == Param(q, "selectedSubCategory");
    assert Param(q[k := v], "periodType") == Param(q, "periodType");
    assert Param(q[k := v], "isIncludeHighExpenseRecord") == Param(q, "isIncludeHighExpenseRecord");
  }
}
