/** The expense-record listing (`getExpenseRecord` in src/controllers/expenseRecordController.ts).
    The handler decodes the query, then builds the SQL query step by step: each optional filter
    that is present and not blank calls `.where(...)`, and `sortBy` calls `.orderBy(...)`. It
    then counts the matching rows and fetches one page of them.

    Two things in the code differ from what it evidently means to do. Drizzle's `.where`
    replaces the previous condition, so only the last filter applied takes effect
    (`ListingAsWritten`); the intended listing requires all of them (`Listing`). And the page
    and page size are read from the decoded query, whose schema no longer has them, so the
    listing is never paged and its page count is NaN; the intended listing reads them from the
    query string with the defaults 1 and 10.

    The table is the sequence of rows in the order the store returns them without an ORDER BY;
    `jsDate` is `new Date(text)`, None for an Invalid Date. */
module ExpenseListing {
  import opened Common
  import opened Calendar
  import opened Records
  import opened Sorting
  import opened Paging
  import opened ExpenseRecordQuery

  /** The columns the listing selects. */
  datatype ListedRow = ListedRow(
    id: string,
    expenseDate: CivilDate,
    amount: int,
    currency: string,
    reason: Option<string>,
    category: string,
    subCategory: Option<string>,
    createdAt: int,
    updatedAt: Option<int>)

  function Project(r: ExpenseRecord): ListedRow {
    ListedRow(r.id, r.expenseDate, r.amount, r.currency, r.reason, r.category, r.subCategory,
              r.createdAt, r.updatedAt)
  }

  function Listed(rows: seq<ExpenseRecord>): (r: seq<ListedRow>)
    ensures |r| == |rows|
    ensures forall i :: 0 <= i < |rows| ==> r[i] == Project(rows[i])
  {
    seq(|rows|, i requires 0 <= i < |rows| => Project(rows[i]))
  }

  // ---------------------------------------------------------------------------------------
  // Conditions

  /** One `.where(...)` condition: `ILIKE '%text%'` on a column, or the date range between two
      `Date` values (None for an Invalid Date). */
  datatype Condition =
    | ReasonLike(text: string)
    | CategoryLike(text: string)
    | SubCategoryLike(text: string)
    | DateBetween(from: Option<int>, to: Option<int>)

  /** A condition the driver can send: an Invalid Date bound throws in `toISOString`. */
  predicate Sendable(c: Condition) {
    c.DateBetween? ==> c.from.Some? && c.to.Some?
  }

  /** Whether a row satisfies a condition. A missing (NULL) column matches no pattern; a `date`
      column compares with a bound sent as an ISO timestamp by the bound's UTC date. */
  predicate Holds(c: Condition, r: ExpenseRecord)
    requires Sendable(c)
  {
    match c
    case ReasonLike(t) => r.reason.Some? && ContainsIgnoringCase(r.reason.value, t)
    case CategoryLike(t) => ContainsIgnoringCase(r.category, t)
    case SubCategoryLike(t) => r.subCategory.Some? && ContainsIgnoringCase(r.subCategory.value, t)
    case DateBetween(from, to) => UtcDay(from.value) <= DayNumber(r.expenseDate) <= UtcDay(to.value)
  }

  function ReasonFilter(eq: ExpenseQuery): seq<Condition> {
    if NonBlank(eq.reason) then [ReasonLike(eq.reason.value)] else []
  }

  function CategoryFilter(eq: ExpenseQuery): seq<Condition> {
    if NonBlank(eq.filterCategory) then [CategoryLike(eq.filterCategory.value)] else []
  }

  function SubCategoryFilter(eq: ExpenseQuery): seq<Condition> {
    if NonBlank(eq.filterSubCategory) then [SubCategoryLike(eq.filterSubCategory.value)] else []
  }

  /** The date range applies only when both bounds are present and not blank. */
  function DateFilter(eq: ExpenseQuery, jsDate: string -> Option<int>): (r: seq<Condition>)
    ensures r != [] <==> NonBlank(eq.filterStartDate) && NonBlank(eq.filterEndDate)
  {
    if NonBlank(eq.filterStartDate) && NonBlank(eq.filterEndDate)
    then [DateBetween(jsDate(eq.filterStartDate.value), jsDate(eq.filterEndDate.value))]
    else []
  }

  /** The filters a decoded query turns on, in the order the handler considers them. */
  function AppliedFilters(eq: ExpenseQuery, jsDate: string -> Option<int>): seq<Condition> {
    ReasonFilter(eq) + CategoryFilter(eq) + SubCategoryFilter(eq) + DateFilter(eq, jsDate)
  }

  /** The filter that takes effect as written: the last one applied. */
  function LastFilter(eq: ExpenseQuery, jsDate: string -> Option<int>): seq<Condition> {
    var filters := AppliedFilters(eq, jsDate);
    if filters == [] then [] else [filters[|filters| - 1]]
  }

  /** The last filter applied is the date range when it applies, else the sub-category, else
      the category, else the reason. */
  lemma LastFilterPriority(eq: ExpenseQuery, jsDate: string -> Option<int>)
    ensures LastFilter(eq, jsDate)
         == if DateFilter(eq, jsDate) != [] then DateFilter(eq, jsDate)
            else if SubCategoryFilter(eq) != [] then SubCategoryFilter(eq)
            else if CategoryFilter(eq) != [] then CategoryFilter(eq)
            else ReasonFilter(eq)
  {
  }

  /** A row satisfies every condition. */
  predicate AllHold(conds: seq<Condition>, r: ExpenseRecord)
    requires forall c :: c in conds ==> Sendable(c)
  {
    forall c :: c in conds ==> Holds(c, r)
  }

  /** The rows of the table that satisfy every condition, in table order. */
  function Matching(table: seq<ExpenseRecord>, conds: seq<Condition>): (r: seq<ExpenseRecord>)
    requires forall c :: c in conds ==> Sendable(c)
    ensures |r| <= |table|
    ensures forall x :: x in r <==> x in table && AllHold(conds, x)
  {
    if table == [] then []
    else
      (if AllHold(conds, table[0]) then [table[0]] else [])
      + Matching(table[1..], conds)
  }

  /** The rows the query selects, or the exception an Invalid Date bound raises. */
  function Select(table: seq<ExpenseRecord>, conds: seq<Condition>): (r: Result<seq<ExpenseRecord>>)
    ensures r.Ok? <==> forall c :: c in conds ==> Sendable(c)
  {
    if forall c :: c in conds ==> Sendable(c) then Ok(Matching(table, conds))
    else Thrown("Invalid time value")
  }

  // ---------------------------------------------------------------------------------------
  // Ordering

  /** The sort key of each ordering, largest first: `ORDER BY expense_date desc`, `... asc`,
      `amount desc` and `amount asc`. */
  function SortKey(s: SortBy): ExpenseRecord -> int {
    match s
    case Newest => (r: ExpenseRecord) => DayNumber(r.expenseDate)
    case Oldest => (r: ExpenseRecord) => -DayNumber(r.expenseDate)
    case Highest => (r: ExpenseRecord) => r.amount
    case Lowest => (r: ExpenseRecord) => -r.amount
  }

  /** The rows in the order the query asks for; rows with equal keys keep their table order. */
  function Ordered(rows: seq<ExpenseRecord>, order: Option<SortBy>): (r: seq<ExpenseRecord>)
    ensures multiset(r) == multiset(rows)
  {
    if order.None? then rows else SortDesc(rows, SortKey(order.value))
  }

  /** The order of the listed rows: by date, newest or oldest first, or by amount, highest or
      lowest first. */
  predicate InOrder(rows: seq<ListedRow>, order: SortBy) {
    match order
    case Newest => forall i, j :: 0 <= i < j < |rows| ==> DayNumber(rows[j].expenseDate) <= DayNumber(rows[i].expenseDate)
    case Oldest => forall i, j :: 0 <= i < j < |rows| ==> DayNumber(rows[i].expenseDate) <= DayNumber(rows[j].expenseDate)
    case Highest => forall i, j :: 0 <= i < j < |rows| ==> rows[j].amount <= rows[i].amount
    case Lowest => forall i, j :: 0 <= i < j < |rows| ==> rows[i].amount <= rows[j].amount
  }

  // ---------------------------------------------------------------------------------------
  // The listing

  /** Stands for zod's `parseResult.error.message`, the JSON list of the schema's issues. */
  const QueryErrorMessage: string := "Invalid expense record query."

  /** The response to a selection: the rows in the order asked for, then one page of them. */
  function Respond(selected: Result<seq<ExpenseRecord>>, order: Option<SortBy>,
                   page: Option<int>, pageSize: Option<int>): Result<Page<ListedRow>>
  {
    match selected
    case Ok(rows) => Paginate(Listed(Ordered(rows, order)), page, pageSize)
    case Fail(s, m) => Fail(s, m)
    case Thrown(m) => Thrown(m)
  }

  /** The handler as written: only the last filter applied takes effect, and no page is cut. */
  function ListingAsWritten(table: seq<ExpenseRecord>, q: Query, jsDate: string -> Option<int>)
    : (r: Result<Page<ListedRow>>)
    ensures DecodeExpenseQuery(q).None? ==> r == Fail(400, QueryErrorMessage)
  {
    match DecodeExpenseQuery(q)
    case None => Fail(400, QueryErrorMessage)
    case Some(eq) =>
      Respond(Select(table, LastFilter(eq, jsDate)), eq.sortBy, None, None)
  }

  /** The intended handler: every filter applied must hold, and the page and page size come
      from the query string, 1 and 10 when absent or not numbers. */
  function Listing(table: seq<ExpenseRecord>, q: Query, jsDate: string -> Option<int>)
    : (r: Result<Page<ListedRow>>)
    ensures DecodeExpenseQuery(q).None? ==> r == Fail(400, QueryErrorMessage)
  {
    match DecodeExpenseQuery(q)
    case None => Fail(400, QueryErrorMessage)
    case Some(eq) =>
      Respond(Select(table, AppliedFilters(eq, jsDate)), eq.sortBy,
              Some(NumberOr(Param(q, "page"), 1)), Some(NumberOr(Param(q, "pageSize"), 10)))
  }

  /** The `.where` steps of `getExpenseRecord`: each filter that applies replaces the condition
      set before it. */
  method WhereSteps(eq: ExpenseQuery, jsDate: string -> Option<int>) returns (where: seq<Condition>)
    ensures where == LastFilter(eq, jsDate)
  {
    where := [];
    if NonBlank(eq.reason) {
      where := [ReasonLike(eq.reason.value)];
    }
    if NonBlank(eq.filterCategory) {
      where := [CategoryLike(eq.filterCategory.value)];
    }
    if NonBlank(eq.filterSubCategory) {
      where := [SubCategoryLike(eq.filterSubCategory.value)];
    }
    if NonBlank(eq.filterStartDate) && NonBlank(eq.filterEndDate) {
      where := [DateBetween(jsDate(eq.filterStartDate.value), jsDate(eq.filterEndDate.value))];
    }
    LastFilterPriority(eq, jsDate);
  }

  /** `getExpenseRecord`: the query object is rebuilt by each step that applies. */
  method GetExpenseRecord(table: seq<ExpenseRecord>, q: Query, jsDate: string -> Option<int>)
    returns (r: Result<Page<ListedRow>>)
    ensures r == ListingAsWritten(table, q, jsDate)
  {
    var parsed := DecodeExpenseQuery(q);
    if parsed.None? {
      return Fail(400, QueryErrorMessage);
    }
    var eq := parsed.value;
    var order: Option<SortBy> := None;
    if eq.sortBy.Some? {
      if eq.sortBy.value == Newest {
        order := Some(Newest);
      } else if eq.sortBy.value == Oldest {
        order := Some(Oldest);
      } else if eq.sortBy.value == Highest {
        order := Some(Highest);
      } else {
        order := Some(Lowest);
      }
    }
    var where := WhereSteps(eq, jsDate);
    AsWrittenWith(table, q, jsDate, eq, where);
    var selected := Select(table, where);
    if !selected.Ok? {
      return Thrown("Invalid time value");
    }
    r := Paginate(Listed(Ordered(selected.value, order)), None, None);
  }

  // ---------------------------------------------------------------------------------------
  // Lemmas

  /** The rows a successful listing holds, before the page is cut: the selected rows put in
      the order asked for, a permutation of them. */
  lemma OrderedListing(rows: seq<ExpenseRecord>, order: SortBy)
    ensures InOrder(Listed(Ordered(rows, Some(order))), order)
    ensures multiset(Ordered(rows, Some(order))) == multiset(rows)
  {
    var key := SortKey(order);
    SortDescSorted(rows, key);
    var s := SortDesc(rows, key);
    var l := Listed(s);
    forall i, j | 0 <= i < j < |l|
      ensures key(s[i]) >= key(s[j]) && l[i] == Project(s[i]) && l[j] == Project(s[j])
    {
    }
  }

  /** As written, the listing is never paged: whatever `page` and `pageSize` say, it holds
      every selected row, and its page, page size and page count are all NaN. */
  lemma ListingNeverPages(table: seq<ExpenseRecord>, q: Query, jsDate: string -> Option<int>)
    requires ListingAsWritten(table, q, jsDate).Ok?
    ensures var p := ListingAsWritten(table, q, jsDate).value;
      |p.items| == p.totalItems && p.currentPage.None? && p.pageSize.None? && p.totalPages.None?
  {
  }

  /** As written, with a category filter, the reason filter is dropped: the listing is the
      one without it. */
  lemma ReasonFilterReplaced(table: seq<ExpenseRecord>, q: Query, jsDate: string -> Option<int>, reason: string)
    requires DecodeExpenseQuery(q).Some? && NonBlank(DecodeExpenseQuery(q).value.filterCategory)
    ensures ListingAsWritten(table, q["reason" := Text(reason)], jsDate) == ListingAsWritten(table, q - {"reason"}, jsDate)
  {
    var q1 := q["reason" := Text(reason)];
    var q2 := q - {"reason"};
    ReasonOnlyDiffers(q, reason);
    var e1 := DecodeExpenseQuery(q1).value;
    var e2 := DecodeExpenseQuery(q2).value;
    assert LastFilter(e1, jsDate) == LastFilter(e2, jsDate) by {
      LastFilterPriority(e1, jsDate);
      LastFilterPriority(e2, jsDate);
    }
    AsWrittenWith(table, q1, jsDate, e1, LastFilter(e1, jsDate));
    AsWrittenWith(table, q2, jsDate, e2, LastFilter(e2, jsDate));
  }

  /** Setting or removing `reason` leaves every other decoded field as it was. */
  lemma ReasonOnlyDiffers(q: Query, reason: string)
    requires DecodeExpenseQuery(q).Some?
    ensures var e1 := DecodeExpenseQuery(q["reason" := Text(reason)]);
      var e2 := DecodeExpenseQuery(q - {"reason"});
      e1.Some? && e2.Some?
      && e1.value.sortBy == e2.value.sortBy && e1.value.filterCategory == e2.value.filterCategory
      && e1.value.filterSubCategory == e2.value.filterSubCategory
      && e1.value.filterStartDate == e2.value.filterStartDate && e1.value.filterEndDate == e2.value.filterEndDate
      && e1.value.filterCategory == DecodeExpenseQuery(q).value.filterCategory
  {
    var q1 := q["reason" := Text(reason)];
    var q2 := q - {"reason"};
    forall f | f in Fields - {"reason"}
      ensures Param(q1, f) == Param(q, f) && Param(q2, f) == Param(q, f)
    {
    }
  }

  lemma ContainsItself(s: string)
    ensures ContainsIgnoringCase(s, s)
  {
    assert InfixAt(Lower(s), Lower(s), 0);
  }

  /** The handler as written, once the query has decoded and its last filter is known. */
  lemma AsWrittenWith(table: seq<ExpenseRecord>, q: Query, jsDate: string -> Option<int>,
                      eq: ExpenseQuery, last: seq<Condition>)
    requires DecodeExpenseQuery(q) == Some(eq) && LastFilter(eq, jsDate) == last
    ensures ListingAsWritten(table, q, jsDate) == Respond(Select(table, last), eq.sortBy, None, None)
  {
  }

  /** The intended handler, once the query has decoded and its filters are known. */
  lemma IntendedWith(table: seq<ExpenseRecord>, q: Query, jsDate: string -> Option<int>,
                     eq: ExpenseQuery, filters: seq<Condition>)
    requires DecodeExpenseQuery(q) == Some(eq) && AppliedFilters(eq, jsDate) == filters
    ensures Listing(table, q, jsDate)
         == Respond(Select(table, filters), eq.sortBy,
                    Some(NumberOr(Param(q, "page"), 1)), Some(NumberOr(Param(q, "pageSize"), 10)))
  {
  }

  /** A reason and a category asked for, nothing else: both filters apply, the category last. */
  lemma ReasonAndCategory(eq: ExpenseQuery, jsDate: string -> Option<int>, reason: string, category: string)
    requires eq == ExpenseQuery(Some(reason), None, Some(category), None, None, None)
    requires Trim(reason) != "" && Trim(category) != ""
    ensures AppliedFilters(eq, jsDate) == [ReasonLike(reason), CategoryLike(category)]
    ensures LastFilter(eq, jsDate) == [CategoryLike(category)]
  {
    assert ReasonFilter(eq) == [ReasonLike(reason)];
    assert CategoryFilter(eq) == [CategoryLike(category)];
    assert SubCategoryFilter(eq) == [] && DateFilter(eq, jsDate) == [];
  }

  /** A row listed alone, with no ordering and no page asked for. */
  lemma ListedAlone(row: ExpenseRecord)
    ensures Respond(Select([row], [CategoryLike(row.category)]), None, None, None)
         == Ok(Page([Project(row)], None, None, 1, None))
  {
    assert [row][1..] == [];
    assert Matching([row], [CategoryLike(row.category)]) == [row] by {
      ContainsItself(row.category);
      assert AllHold([CategoryLike(row.category)], row);
    }
    assert Listed([row]) == [Project(row)];
    Unpaged([Project(row)]);
  }

  /** A row without a reason fails the reason filter, whatever else is asked. */
  lemma NoReasonNoMatch(row: ExpenseRecord, reason: string)
    requires row.reason.None?
    ensures Select([row], [ReasonLike(reason), CategoryLike(row.category)]) == Ok([])
  {
    assert [row][1..] == [];
    var conds := [ReasonLike(reason), CategoryLike(row.category)];
    assert conds[0] in conds && !Holds(conds[0], row);
  }

  /** A one-row table whose row has no reason, and a query asking for a reason and for the
      row's category: as written the row is listed, although it has no reason. */
  lemma FiltersDoNotCombine(row: ExpenseRecord, reason: string, q: Query, jsDate: string -> Option<int>)
    requires row.reason.None? && Trim(reason) != "" && Trim(row.category) != ""
    requires DecodeExpenseQuery(q) == Some(ExpenseQuery(Some(reason), None, Some(row.category), None, None, None))
    ensures ListingAsWritten([row], q, jsDate) == Ok(Page([Project(row)], None, None, 1, None))
  {
    var eq := DecodeExpenseQuery(q).value;
    ReasonAndCategory(eq, jsDate, reason, row.category);
    AsWrittenWith([row], q, jsDate, eq, [CategoryLike(row.category)]);
    ListedAlone(row);
  }

  /** The same table and query: the intended listing leaves the row out. */
  lemma FiltersCombine(row: ExpenseRecord, reason: string, q: Query, jsDate: string -> Option<int>)
    requires row.reason.None? && Trim(reason) != "" && Trim(row.category) != ""
    requires DecodeExpenseQuery(q) == Some(ExpenseQuery(Some(reason), None, Some(row.category), None, None, None))
    requires "page" !in q && "pageSize" !in q
    ensures Listing([row], q, jsDate).Ok? && Listing([row], q, jsDate).value.items == []
  {
    var eq := DecodeExpenseQuery(q).value;
    var filters := [ReasonLike(reason), CategoryLike(row.category)];
    ReasonAndCategory(eq, jsDate, reason, row.category);
    IntendedWith([row], q, jsDate, eq, filters);
    NoReasonNoMatch(row, reason);
    assert Param(q, "page").None? && Param(q, "pageSize").None?;
    NothingSelected(None, 1, 10);
  }

  /** No selected row, no listed row, whatever the page. */
  lemma NothingSelected(order: Option<SortBy>, page: int, pageSize: int)
    requires page >= 1 && pageSize >= 1
    ensures Respond(Ok([]), order, Some(page), Some(pageSize)).Ok?
    ensures Respond(Ok([]), order, Some(page), Some(pageSize)).value.items == []
  {
    assert Listed(Ordered([], order)) == [];
  }

  /** The intended listing holds only rows that satisfy every filter the query turns on, in the
      order asked for. */
  lemma ListingMatchesAll(table: seq<ExpenseRecord>, q: Query, jsDate: string -> Option<int>)
    requires Listing(table, q, jsDate).Ok?
    ensures var eq := DecodeExpenseQuery(q).value;
      var filters := AppliedFilters(eq, jsDate);
      (forall c :: c in filters ==> Sendable(c))
      && forall y :: y in Listing(table, q, jsDate).value.items ==>
        exists x :: x in table && y == Project(x) && forall c :: c in filters ==> Holds(c, x)
  {
    var eq := DecodeExpenseQuery(q).value;
    var filters := AppliedFilters(eq, jsDate);
    IntendedWith(table, q, jsDate, eq, filters);
    RespondMatchesAll(table, filters, eq.sortBy, Some(NumberOr(Param(q, "page"), 1)),
                      Some(NumberOr(Param(q, "pageSize"), 10)));
  }

  /** Every row of a page of a selection is a row of the table satisfying every condition. */
  lemma RespondMatchesAll(table: seq<ExpenseRecord>, filters: seq<Condition>, order: Option<SortBy>,
                          page: Option<int>, pageSize: Option<int>)
    requires Respond(Select(table, filters), order, page, pageSize).Ok?
    ensures (forall c :: c in filters ==> Sendable(c))
      && forall y :: y in Respond(Select(table, filters), order, page, pageSize).value.items ==>
        exists x :: x in table && y == Project(x) && forall c :: c in filters ==> Holds(c, x)
  {
    var rows := Matching(table, filters);
    assert Select(table, filters) == Ok(rows);
    var listed := Listed(Ordered(rows, order));
    var items := Respond(Select(table, filters), order, page, pageSize).value.items;
    assert items == Paginate(listed, page, pageSize).value.items;
    PageFromRows(listed, page, pageSize);
    ListedFrom(rows, order);
    forall y | y in items
      ensures exists x :: x in table && y == Project(x) && forall c :: c in filters ==> Holds(c, x)
    {
      var x :| x in rows && y == Project(x);
      assert x in table && AllHold(filters, x);
    }
  }

  /** Every listed row is the projection of a selected row. */
  lemma ListedFrom(rows: seq<ExpenseRecord>, order: Option<SortBy>)
    ensures forall y :: y in Listed(Ordered(rows, order)) ==> exists x :: x in rows && y == Project(x)
  {
    var o := Ordered(rows, order);
    forall y | y in Listed(o)
      ensures exists x :: x in rows && y == Project(x)
    {
      var k :| 0 <= k < |o| && Listed(o)[k] == y;
      assert o[k] in multiset(o);
    }
  }

  /** Without `page` and `pageSize` the intended listing is the first page of ten rows, and
      its page count is just enough for all the matching rows. */
  lemma ListingDefaults(table: seq<ExpenseRecord>, q: Query, jsDate: string -> Option<int>)
    requires "page" !in q && "pageSize" !in q
    requires Listing(table, q, jsDate).Ok?
    ensures var p := Listing(table, q, jsDate).value;
      p.currentPage == Some(1) && p.pageSize == Some(10)
      && p.totalPages.Some? && (p.totalPages.value - 1) * 10 < p.totalItems <= p.totalPages.value * 10
      && |p.items| == Min(10, p.totalItems)
  {
    var p := Listing(table, q, jsDate).value;
    TotalPagesBounds(p.totalItems, 10);
  }
}
