/** The sub-category handlers of src/controllers/subCategoryController.ts: the paged listing
    `getSubCategory`, and `getSubCategoryById`, `createSubCategory` and `updateSubCategory`
    over the sub-category table, held as a map from id to row.

    The listing joins each sub-category with its category and orders by creation time, newest
    first; rows created at the same instant keep their storage order. The fresh id and the
    clock are parameters; the database's checks (the name is NOT NULL and unique, the id is
    the primary key, the category id must name a category) make the handler throw when they
    fail. */
module SubCategories {
  import opened Common
  import opened Records
  import opened Sorting
  import opened Paging
  import Categories

  const NoDataMessage: string := "No data is updated"
  const RejectedMessage: string := "rejected by the database"

  function NotFoundMessage(id: string): string {
    "Subcategory with the id of " + id + " was not found"
  }

  // ---------------------------------------------------------------------------------------
  // getSubCategory

  /** A listed row: the sub-category's own columns and its category's id and name. */
  datatype SubCategoryRow = SubCategoryRow(
    id: string,
    name: string,
    description: Option<string>,
    createdAt: int,
    updatedAt: Option<int>,
    categoryId: string,
    categoryName: string)

  function RowName(r: SubCategoryRow): string {
    r.name
  }

  function RowCreatedAt(r: SubCategoryRow): int {
    r.createdAt
  }

  /** `innerJoin(categoryTable, eq(subCategoryTable.categoryId, categoryTable.id))`: the
      sub-categories whose category exists, each with that category, in storage order. */
  function Joined(subs: seq<SubCategory>, categories: map<string, Category>): (r: seq<SubCategoryRow>)
    ensures |r| <= |subs|
    ensures forall x :: x in r <==>
      exists s :: s in subs && s.categoryId in categories && x == JoinRow(s, categories[s.categoryId])
  {
    if subs == [] then []
    else
      var s := subs[0];
      (if s.categoryId in categories then [JoinRow(s, categories[s.categoryId])] else [])
      + Joined(subs[1..], categories)
  }

  function JoinRow(s: SubCategory, c: Category): SubCategoryRow {
    SubCategoryRow(s.id, s.name, s.description, s.createdAt, s.updatedAt, c.id, c.name)
  }

  /** When every sub-category's category exists, the join drops none of them. */
  lemma {:induction false} JoinKeepsAll(subs: seq<SubCategory>, categories: map<string, Category>)
    requires forall s :: s in subs ==> s.categoryId in categories
    ensures |Joined(subs, categories)| == |subs|
  {
    if subs != [] {
      JoinKeepsAll(subs[1..], categories);
    }
  }

  /** The listing for a given page and page size. */
  function SubCategoryPage(subs: seq<SubCategory>, categories: map<string, Category>, q: Query,
                           paging: (Option<int>, Option<int>)): (r: Result<Page<SubCategoryRow>>)
    ensures Categories.NameFilter(Param(q, "name")).Thrown? ==> r.Thrown?
  {
    match Categories.NameFilter(Param(q, "name"))
    case Ok(filter) =>
      Paginate(SortDesc(Categories.Named(Joined(subs, categories), RowName, filter), RowCreatedAt),
               paging.0, paging.1)
    case Fail(s, m) => Fail(s, m)
    case Thrown(m) => Thrown(m)
  }

  /** `getSubCategory` as written: `Number(x) ?? d` leaves an absent parameter NaN. */
  function ListingAsWritten(subs: seq<SubCategory>, categories: map<string, Category>, q: Query)
    : Result<Page<SubCategoryRow>>
  {
    SubCategoryPage(subs, categories, q, Categories.PagingAsWritten(q))
  }

  /** `getSubCategory` with page 1 and 10 rows as the defaults. */
  function Listing(subs: seq<SubCategory>, categories: map<string, Category>, q: Query)
    : Result<Page<SubCategoryRow>>
  {
    SubCategoryPage(subs, categories, q, Categories.PagingIntended(q))
  }

  /** A listed page holds sub-categories whose category exists, with that category's name,
      whose own name matches the filter, newest first; it counts every such row. */
  lemma SubCategoryPageContents(subs: seq<SubCategory>, categories: map<string, Category>, q: Query,
                                paging: (Option<int>, Option<int>))
    requires SubCategoryPage(subs, categories, q, paging).Ok?
    ensures var filter := Categories.NameFilter(Param(q, "name")).value;
      var p := SubCategoryPage(subs, categories, q, paging).value;
      SortedDesc(p.items, RowCreatedAt)
      && (forall x :: x in p.items ==>
            Categories.NameMatches(x.name, filter)
            && exists s :: s in subs && s.categoryId in categories && x == JoinRow(s, categories[s.categoryId]))
      && p.totalItems == |Categories.Named(Joined(subs, categories), RowName, filter)|
  {
    var filter := Categories.NameFilter(Param(q, "name")).value;
    var named := Categories.Named(Joined(subs, categories), RowName, filter);
    var sorted := SortDesc(named, RowCreatedAt);
    SortDescSorted(named, RowCreatedAt);
    Categories.PageKeepsOrder(sorted, RowCreatedAt, paging.0, paging.1);
    forall x | x in sorted
      ensures x in named
    {
      assert x in multiset(sorted);
    }
  }

  /** Without parameters the intended listing is the first page of ten. */
  lemma IntendedDefaults(subs: seq<SubCategory>, categories: map<string, Category>, q: Query)
    requires "page" !in q && "pageSize" !in q && "name" !in q
    ensures var sorted := SortDesc(Joined(subs, categories), RowCreatedAt);
      Listing(subs, categories, q)
      == Ok(Page(sorted[..Min(10, |sorted|)], Some(1), Some(CeilDiv(|sorted|, 10)), |sorted|, Some(10)))
  {
    assert Categories.PagingIntended(q) == (Some(1), Some(10));
    Categories.NamedNone(Joined(subs, categories), RowName);
    Categories.FirstPage(SortDesc(Joined(subs, categories), RowCreatedAt), 10);
  }

  /** As written, without parameters every joined row comes back on one page, and the current
      page and the page count are NaN. */
  lemma UnpagedWithoutParameters(subs: seq<SubCategory>, categories: map<string, Category>, q: Query)
    requires "page" !in q && "pageSize" !in q && "name" !in q
    ensures var sorted := SortDesc(Joined(subs, categories), RowCreatedAt);
      ListingAsWritten(subs, categories, q) == Ok(Page(sorted, None, None, |sorted|, None))
  {
    assert Categories.PagingAsWritten(q) == (None, None);
    Categories.NamedNone(Joined(subs, categories), RowName);
    Unpaged(SortDesc(Joined(subs, categories), RowCreatedAt));
  }

  /** `getSubCategory`: the joined, ordered query, narrowed by the name when one is given. */
  method GetSubCategory(subs: seq<SubCategory>, categories: map<string, Category>, q: Query)
    returns (r: Result<Page<SubCategoryRow>>)
    ensures r == ListingAsWritten(subs, categories, q)
  {
    var page := NumberParam(Param(q, "page"));
    var pageSize := NumberParam(Param(q, "pageSize"));
    var name := Param(q, "name");
    var joined := Joined(subs, categories);
    var rows := SortDesc(joined, RowCreatedAt);
    if name.Some? && name.value.Structured? {
      return Thrown("name.trim is not a function");
    }
    if name.Some? && name.value.text != "" && Trim(name.value.text) != "" {
      rows := SortDesc(Categories.Named(joined, RowName, Some(name.value.text)), RowCreatedAt);
    } else {
      Categories.NamedNone(joined, RowName);
    }
    r := Paginate(rows, page, pageSize);
  }

  // ---------------------------------------------------------------------------------------
  // The table

  /** The fields of a create or update body the table reads. */
  datatype SubCategoryBody = SubCategoryBody(
    id: Option<string>,
    name: Option<string>,
    description: Option<string>,
    categoryId: Option<string>)

  /** Some row other than `except` has this name. */
  predicate NameTaken(rows: map<string, SubCategory>, name: string, except: string) {
    exists k :: k in rows && k != except && rows[k].name == name
  }

  /** Every row is stored under its id, has a name no other row has, and refers to an
      existing category. */
  predicate Valid(rows: map<string, SubCategory>, categoryIds: set<string>) {
    forall k :: k in rows ==>
      rows[k].id == k && !NameTaken(rows, rows[k].name, k) && rows[k].categoryId in categoryIds
  }

  /** `getSubCategoryById`. */
  function FindById(rows: map<string, SubCategory>, id: string): (r: Result<SubCategory>)
    requires forall k :: k in rows ==> rows[k].id == k
    ensures r.Ok? <==> id in rows
    ensures r.Ok? ==> r.value == rows[id] && r.value.id == id
    ensures !r.Ok? ==> r == Fail(404, NotFoundMessage(id))
  {
    if id in rows then Ok(rows[id]) else Fail(404, NotFoundMessage(id))
  }

  /** `createSubCategory`: the body's id is replaced by `newId` and the row inserted, created
      now, if the database accepts it. */
  function CreateOutcome(rows: map<string, SubCategory>, categoryIds: set<string>, body: SubCategoryBody,
                         newId: string, now: int): (r: Result<SubCategory>)
    ensures r.Ok? <==>
      body.name.Some? && body.categoryId.Some? && body.categoryId.value in categoryIds
      && newId !in rows && !NameTaken(rows, body.name.value, newId)
    ensures r.Ok? ==>
      r.value == SubCategory(newId, body.name.value, body.description, body.categoryId.value, now, None)
    ensures !r.Ok? ==> r.Thrown?
  {
    if body.name.None? || body.categoryId.None? || body.categoryId.value !in categoryIds
       || newId in rows || NameTaken(rows, body.name.value, newId)
    then Thrown(RejectedMessage)
    else Ok(SubCategory(newId, body.name.value, body.description, body.categoryId.value, now, None))
  }

  /** The patch of `updateSubCategory`: a truthy name, description or category id replaces the
      stored one, and `updatedAt` is always set. */
  function Patch(s: SubCategory, body: SubCategoryBody, now: int): (r: SubCategory)
    ensures r.id == s.id && r.createdAt == s.createdAt && r.updatedAt == Some(now)
    ensures r.name == (if Truthy(body.name) then body.name.value else s.name)
    ensures r.description == (if Truthy(body.description) then body.description else s.description)
    ensures r.categoryId == (if Truthy(body.categoryId) then body.categoryId.value else s.categoryId)
  {
    s.(name := if Truthy(body.name) then body.name.value else s.name,
       description := if Truthy(body.description) then body.description else s.description,
       categoryId := if Truthy(body.categoryId) then body.categoryId.value else s.categoryId,
       updatedAt := Some(now))
  }

  /** `updateSubCategory`: 404 for an unknown id, 400 without a body, otherwise the patched
      row if the database accepts it. */
  function UpdateOutcome(rows: map<string, SubCategory>, categoryIds: set<string>, id: string,
                         body: Option<SubCategoryBody>, now: int): (r: Result<SubCategory>)
    ensures id !in rows ==> r == Fail(404, NotFoundMessage(id))
    ensures id in rows && body.None? ==> r == Fail(400, NoDataMessage)
    ensures r.Ok? <==>
      id in rows && body.Some?
      && !NameTaken(rows, Patch(rows[id], body.value, now).name, id)
      && Patch(rows[id], body.value, now).categoryId in categoryIds
    ensures r.Ok? ==> r.value == Patch(rows[id], body.value, now)
  {
    if id !in rows then Fail(404, NotFoundMessage(id))
    else if body.None? then Fail(400, NoDataMessage)
    else
      var p := Patch(rows[id], body.value, now);
      if NameTaken(rows, p.name, id) || p.categoryId !in categoryIds then Thrown(RejectedMessage)
      else Ok(p)
  }

  function Stored(rows: map<string, SubCategory>, r: Result<SubCategory>): map<string, SubCategory> {
    if r.Ok? then rows[r.value.id := r.value] else rows
  }

  /** Creating keeps the table valid. */
  lemma CreateKeepsValid(rows: map<string, SubCategory>, categoryIds: set<string>, body: SubCategoryBody,
                         newId: string, now: int)
    requires Valid(rows, categoryIds)
    ensures Valid(Stored(rows, CreateOutcome(rows, categoryIds, body, newId, now)), categoryIds)
  {
    var r := CreateOutcome(rows, categoryIds, body, newId, now);
    if r.Ok? {
      var s := Stored(rows, r);
      forall k | k in s
        ensures s[k].id == k && !NameTaken(s, s[k].name, k) && s[k].categoryId in categoryIds
      {
        forall l | l in s && l != k
          ensures s[l].name != s[k].name
        {
        }
      }
    }
  }

  /** Updating keeps the table valid and leaves the other rows as they were. */
  lemma UpdateKeepsValid(rows: map<string, SubCategory>, categoryIds: set<string>, id: string,
                         body: Option<SubCategoryBody>, now: int)
    requires Valid(rows, categoryIds)
    ensures var s := Stored(rows, UpdateOutcome(rows, categoryIds, id, body, now));
      Valid(s, categoryIds) && s.Keys == rows.Keys && forall k :: k in rows && k != id ==> s[k] == rows[k]
  {
    var r := UpdateOutcome(rows, categoryIds, id, body, now);
    if r.Ok? {
      var s := Stored(rows, r);
      forall k | k in s
        ensures s[k].id == k && !NameTaken(s, s[k].name, k) && s[k].categoryId in categoryIds
      {
        forall l | l in s && l != k
          ensures s[l].name != s[k].name
        {
        }
      }
    }
  }

  class SubCategoryTable {
    var rows: map<string, SubCategory>

    constructor(initial: map<string, SubCategory>, categoryIds: set<string>)
      requires Valid(initial, categoryIds)
      ensures rows == initial
    {
      rows := initial;
    }

    /** `getSubCategoryById`. */
    method GetById(id: string, categoryIds: set<string>) returns (r: Result<SubCategory>)
      requires Valid(rows, categoryIds)
      ensures r == FindById(rows, id)
    {
      r := FindById(rows, id);
    }

    /** `createSubCategory`. */
    method Create(body: SubCategoryBody, categoryIds: set<string>, newId: string, now: int)
      returns (r: Result<SubCategory>)
      requires Valid(rows, categoryIds)
      modifies this
      ensures Valid(rows, categoryIds)
      ensures r == CreateOutcome(old(rows), categoryIds, body, newId, now)
      ensures rows == Stored(old(rows), r)
    {
      CreateKeepsValid(rows, categoryIds, body, newId, now);
      r := CreateOutcome(rows, categoryIds, body, newId, now);
      if r.Ok? {
        rows := rows[newId := r.value];
      }
    }

    /** `updateSubCategory`. */
    method Update(id: string, body: Option<SubCategoryBody>, categoryIds: set<string>, now: int)
      returns (r: Result<SubCategory>)
      requires Valid(rows, categoryIds)
      modifies this
      ensures Valid(rows, categoryIds)
      ensures r == UpdateOutcome(old(rows), categoryIds, id, body, now)
      ensures rows == Stored(old(rows), r)
    {
      UpdateKeepsValid(rows, categoryIds, id, body, now);
      if id !in rows {
        return Fail(404, NotFoundMessage(id));
      }
      if body.None? {
        return Fail(400, NoDataMessage);
      }
      var patched := Patch(rows[id], body.value, now);
      if NameTaken(rows, patched.name, id) || patched.categoryId !in categoryIds {
        return Thrown(RejectedMessage);
      }
      rows := rows[id := patched];
      r := Ok(patched);
    }
  }
}
