/** The query-string schema of the expense-record listing (src/types/expenseRecord.ts): every
    field optional, `sortBy` restricted to four words, the rest free strings. `page` and
    `pageSize` are not in the schema, so they never reach the decoded value. */
module ExpenseRecordQuery {
  import opened Common
  import DashboardQuery

  datatype SortBy = Newest | Oldest | Highest | Lowest

  datatype ExpenseQuery = ExpenseQuery(
    reason: Option<string>,
    sortBy: Option<SortBy>,
    filterCategory: Option<string>,
    filterSubCategory: Option<string>,
    filterStartDate: Option<string>,
    filterEndDate: Option<string>)

  const Fields: set<string> :=
    {"reason", "sortBy", "filterCategory", "filterSubCategory", "filterStartDate", "filterEndDate"}

  /** `z.enum(["newest", "oldest", "highest", "lowest"]).optional()`. */
  function DecodeSortBy(v: Option<QueryValue>): (r: Option<Option<SortBy>>)
    ensures v.None? ==> r == Some(None)
    ensures r.Some? && r.value.Some? ==> v.Some? && v.value.Text? && v.value.text == SortWord(r.value.value)
    ensures r.Some? <==> v.None? || (v.value.Text? && v.value.text in {"newest", "oldest", "highest", "lowest"})
  {
    match v
    case None => Some(None)
    case Some(Text(s)) =>
      if s == "newest" then Some(Some(Newest))
      else if s == "oldest" then Some(Some(Oldest))
      else if s == "highest" then Some(Some(Highest))
      else if s == "lowest" then Some(Some(Lowest))
      else None
    case Some(Structured) => None
  }

  function SortWord(s: SortBy): string {
    match s
    case Newest => "newest"
    case Oldest => "oldest"
    case Highest => "highest"
    case Lowest => "lowest"
  }

  /** `expenseRecordQuerySchema.safeParse(req.query)`; None when it fails. */
  function DecodeExpenseQuery(q: Query): (r: Option<ExpenseQuery>)
    ensures r.Some? <==>
      DecodeSortBy(Param(q, "sortBy")).Some?
      && forall f :: f in Fields - {"sortBy"} ==> DashboardQuery.OptionalString(Param(q, f)).Some?
    ensures r.Some? ==>
      r.value.reason == DashboardQuery.OptionalString(Param(q, "reason")).value
      && r.value.sortBy == DecodeSortBy(Param(q, "sortBy")).value
      && r.value.filterCategory == DashboardQuery.OptionalString(Param(q, "filterCategory")).value
      && r.value.filterSubCategory == DashboardQuery.OptionalString(Param(q, "filterSubCategory")).value
      && r.value.filterStartDate == DashboardQuery.OptionalString(Param(q, "filterStartDate")).value
      && r.value.filterEndDate == DashboardQuery.OptionalString(Param(q, "filterEndDate")).value
  {
    var reason := DashboardQuery.OptionalString(Param(q, "reason"));
    var sortBy := DecodeSortBy(Param(q, "sortBy"));
    var cat := DashboardQuery.OptionalString(Param(q, "filterCategory"));
    var sub := DashboardQuery.OptionalString(Param(q, "filterSubCategory"));
    var start := DashboardQuery.OptionalString(Param(q, "filterStartDate"));
    var end := DashboardQuery.OptionalString(Param(q, "filterEndDate"));
    assert Fields - {"sortBy"}
        == {"reason", "filterCategory", "filterSubCategory", "filterStartDate", "filterEndDate"};
    if reason.Some? && sortBy.Some? && cat.Some? && sub.Some? && start.Some? && end.Some? then
      Some(ExpenseQuery(reason.value, sortBy.value, cat.value, sub.value, start.value, end.value))
    else None
  }

  /** Every field is optional: the empty query decodes, to a value with nothing set. */
  lemma EmptyQueryDecodes()
    ensures DecodeExpenseQuery(map[]) == Some(ExpenseQuery(None, None, None, None, None, None))
  {
    forall f | f in Fields - {"sortBy"}
      ensures DashboardQuery.OptionalString(Param(map[], f)).Some?
    {
    }
  }

  /** Keys outside the schema, `page` and `pageSize` among them, neither fail the parse nor
      appear in its result. */
  lemma OtherKeysIgnored(q: Query, k: string, v: QueryValue)
    requires k !in Fields
    ensures DecodeExpenseQuery(q[k := v]) == DecodeExpenseQuery(q)
  {
    forall f | f in Fields
      ensures Param(q[k := v], f) == Param(q, f)
    {
    }
  }

  /** In particular the page parameters of the listing are dropped. */
  lemma PageParametersDropped(q: Query, page: QueryValue, pageSize: QueryValue)
    ensures DecodeExpenseQuery(q["page" := page]["pageSize" := pageSize]) == DecodeExpenseQuery(q)
  {
    OtherKeysIgnored(q["page" := page], "pageSize", pageSize);
    OtherKeysIgnored(q, "page", page);
  }
}
