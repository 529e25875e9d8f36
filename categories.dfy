/** The category handlers of src/controllers/categoryController.ts: the paged listing
    `getCategory` and `getCategoryById`, `createCategory`, `updateCategory` and
    `deleteCategory` over the category table, held as a map from id to row.

    The listing reads the table in its storage order (a parameter) and orders it by creation
    time, newest first; rows created at the same instant keep their storage order. The fresh
    id and the clock are parameters. The database's own checks (the name is NOT NULL and
    unique, the id is the primary key, sub-categories refer to their category) make the
    handler throw when they fail. */
module Categories {
  import opened Common
  import opened Records
  import opened Sorting
  import opened Paging

  const NoDataMessage: string := "No data is updated"
  const RejectedMessage: string := "rejected by the database"

  function NotFoundMessage(id: string): string {
    "Category with the id of " + id + " was not found"
  }

  // ---------------------------------------------------------------------------------------
  // The listing, shared with the sub-category listing

  /** `name && name.trim() !== ""` on `req.query.name as string`: a blank or absent name sets
      no filter, and an array or object has no `trim`, so the handler throws. */
  function NameFilter(v: Option<QueryValue>): (r: Result<Option<string>>)
    ensures r.Ok? <==> v != Some(Structured)
    ensures r.Ok? && r.value.Some? <==> v.Some? && v.value.Text? && Trim(v.value.text) != ""
    ensures r.Ok? && r.value.Some? ==> r.value.value == v.value.text
  {
    match v
    case None => Ok(None)
    case Some(Structured) => Thrown("name.trim is not a function")
    case Some(Text(s)) => if s != "" && Trim(s) != "" then Ok(Some(s)) else Ok(None)
  }

  /** `ilike(table.name, '%name%')`, or every row when there is no filter. */
  predicate NameMatches(name: string, filter: Option<string>) {
    filter.None? || ContainsIgnoringCase(name, filter.value)
  }

  /** The rows whose name matches, in their order. */
  function Named<T(!new)>(rows: seq<T>, name: T -> string, filter: Option<string>): (r: seq<T>)
    ensures |r| <= |rows|
    ensures forall x :: x in r <==> x in rows && NameMatches(name(x), filter)
  {
    if rows == [] then []
    else (if NameMatches(name(rows[0]), filter) then [rows[0]] else []) + Named(rows[1..], name, filter)
  }

  /** `Number(req.query.page) ?? 1` and the same for `pageSize` with 10: `Number` never gives
      null or undefined, so an absent or non-numeric parameter stays NaN. */
  function PagingAsWritten(q: Query): (Option<int>, Option<int>) {
    (NumberParam(Param(q, "page")), NumberParam(Param(q, "pageSize")))
  }

  /** The defaults evidently meant: page 1 and 10 rows when a parameter is absent or not a
      number. */
  function PagingIntended(q: Query): (Option<int>, Option<int>) {
    (Some(NumberOr(Param(q, "page"), 1)), Some(NumberOr(Param(q, "pageSize"), 10)))
  }

  /** A page cut from rows in order keeps that order and holds only those rows. */
  lemma PageKeepsOrder<T>(rows: seq<T>, key: T -> int, page: Option<int>, pageSize: Option<int>)
    requires SortedDesc(rows, key)
    requires Paginate(rows, page, pageSize).Ok?
    ensures var items := Paginate(rows, page, pageSize).value.items;
      SortedDesc(items, key) && forall x :: x in items ==> x in rows
  {
    var k := PageIsSlice(rows, page, pageSize);
    SliceSorted(rows, key, k, |Paginate(rows, page, pageSize).value.items|);
    PageFromRows(rows, page, pageSize);
  }

  /** A run of consecutive rows of a sorted sequence is sorted. */
  lemma SliceSorted<T>(rows: seq<T>, key: T -> int, k: nat, n: nat)
    requires SortedDesc(rows, key) && k + n <= |rows|
    ensures SortedDesc(rows[k..k + n], key)
  {
    var s := rows[k..k + n];
    forall i, j | 0 <= i < j < n
      ensures key(s[i]) >= key(s[j])
    {
      assert s[i] == rows[k + i] && s[j] == rows[k + j];
    }
  }

  // ---------------------------------------------------------------------------------------
  // getCategory

  function CreatedAt(c: Category): int {
    c.createdAt
  }

  function CategoryName(c: Category): string {
    c.name
  }

  /** The listing for a given page and page size: the matching rows, newest first. */
  function CategoryPage(table: seq<Category>, q: Query, paging: (Option<int>, Option<int>))
    : (r: Result<Page<Category>>)
    ensures NameFilter(Param(q, "name")).Thrown? ==> r.Thrown?
  {
    match NameFilter(Param(q, "name"))
    case Ok(filter) => Paginate(SortDesc(Named(table, CategoryName, filter), CreatedAt), paging.0, paging.1)
    case Fail(s, m) => Fail(s, m)
    case Thrown(m) => Thrown(m)
  }

  /** `getCategory` as written. */
  function ListingAsWritten(table: seq<Category>, q: Query): Result<Page<Category>>
  {
    CategoryPage(table, q, PagingAsWritten(q))
  }

  /** `getCategory` with the defaults it evidently means. */
  function Listing(table: seq<Category>, q: Query): Result<Page<Category>>
  {
    CategoryPage(table, q, PagingIntended(q))
  }

  /** Whatever the paging, a listed page holds rows of the table whose name matches the
      filter, newest first, and counts every matching row. */
  lemma CategoryPageContents(table: seq<Category>, q: Query, paging: (Option<int>, Option<int>))
    requires CategoryPage(table, q, paging).Ok?
    ensures var filter := NameFilter(Param(q, "name")).value;
      var p := CategoryPage(table, q, paging).value;
      SortedDesc(p.items, CreatedAt)
      && (forall x :: x in p.items ==> x in table && NameMatches(x.name, filter))
      && p.totalItems == |Named(table, CategoryName, filter)|
  {
    var filter := NameFilter(Param(q, "name")).value;
    var sorted := SortDesc(Named(table, CategoryName, filter), CreatedAt);
    SortDescSorted(Named(table, CategoryName, filter), CreatedAt);
    PageKeepsOrder(sorted, CreatedAt, paging.0, paging.1);
    forall x | x in sorted
      ensures x in Named(table, CategoryName, filter)
    {
      assert x in multiset(sorted);
    }
  }

  /** As written, a request without `page` and `pageSize` is not paged at all: every matching
      row comes back, and the current page and the page count are NaN. */
  lemma UnpagedWithoutParameters(table: seq<Category>, q: Query)
    requires "page" !in q && "pageSize" !in q && "name" !in q
    ensures ListingAsWritten(table, q)
         == Ok(Page(SortDesc(table, CreatedAt), None, None, |table|, None))
  {
    assert Named(table, CategoryName, None) == table by {
      NamedNone(table, CategoryName);
    }
    Unpaged(SortDesc(table, CreatedAt));
  }

  /** With no filter every row is kept. */
  lemma {:induction false} NamedNone<T(!new)>(rows: seq<T>, name: T -> string)
    ensures Named(rows, name, None) == rows
  {
    if rows != [] {
      NamedNone(rows[1..], name);
      assert rows == [rows[0]] + rows[1..];
    }
  }

  /** The first page holds the first `pageSize` rows. */
  lemma FirstPage<T>(rows: seq<T>, pageSize: int)
    requires pageSize >= 1
    ensures Paginate(rows, Some(1), Some(pageSize))
         == Ok(Page(rows[..Min(pageSize, |rows|)], Some(1), Some(CeilDiv(|rows|, pageSize)), |rows|, Some(pageSize)))
  {
    assert OffsetValue(Some(1), Some(pageSize)) == Some(0);
    assert rows[0..] == rows;
  }

  /** Without parameters the intended listing is the whole table on pages of ten. */
  lemma IntendedIsFirstPage(table: seq<Category>, q: Query)
    requires "page" !in q && "pageSize" !in q && "name" !in q
    ensures Listing(table, q) == Paginate(SortDesc(table, CreatedAt), Some(1), Some(10))
  {
    assert PagingIntended(q) == (Some(1), Some(10));
    NamedNone(table, CategoryName);
  }

  /** The intended defaults give the first ten rows, newest first, and the number of pages
      of ten that the table fills. */
  lemma IntendedDefaults(table: seq<Category>, q: Query)
    requires "page" !in q && "pageSize" !in q && "name" !in q
    ensures var sorted := SortDesc(table, CreatedAt);
      Listing(table, q) == Ok(Page(sorted[..Min(10, |table|)], Some(1), Some(CeilDiv(|table|, 10)), |table|, Some(10)))
  {
    IntendedIsFirstPage(table, q);
    FirstPage(SortDesc(table, CreatedAt), 10);
  }

  /** `getCategory`: the query is built, then narrowed by the name when one is given. */
  method GetCategory(table: seq<Category>, q: Query) returns (r: Result<Page<Category>>)
    ensures r == ListingAsWritten(table, q)
  {
    var page := NumberParam(Param(q, "page"));
    var pageSize := NumberParam(Param(q, "pageSize"));
    var name := Param(q, "name");
    var rows := SortDesc(table, CreatedAt);
    if name.Some? && name.value.Structured? {
      return Thrown("name.trim is not a function");
    }
    if name.Some? && name.value.text != "" && Trim(name.value.text) != "" {
      rows := SortDesc(Named(table, CategoryName, Some(name.value.text)), CreatedAt);
    } else {
      NamedNone(table, CategoryName);
    }
    r := Paginate(rows, page, pageSize);
  }

  // ---------------------------------------------------------------------------------------
  // The table

  /** The fields of a create or update body the table reads. */
  datatype CategoryBody = CategoryBody(id: Option<string>, name: Option<string>, description: Option<string>)

  /** Every row is stored under its id and no two rows share a name. */
  predicate Valid(rows: map<string, Category>) {
    forall k :: k in rows ==> rows[k].id == k && !NameTaken(rows, rows[k].name, k)
  }

  /** Some row other than `except` has this name. */
  predicate NameTaken(rows: map<string, Category>, name: string, except: string) {
    exists k :: k in rows && k != except && rows[k].name == name
  }

  /** `getCategoryById`. */
  function FindById(rows: map<string, Category>, id: string): (r: Result<Category>)
    requires Valid(rows)
    ensures r.Ok? <==> id in rows
    ensures r.Ok? ==> r.value == rows[id] && r.value.id == id
    ensures !r.Ok? ==> r == Fail(404, NotFoundMessage(id))
  {
    if id in rows then Ok(rows[id]) else Fail(404, NotFoundMessage(id))
  }

  /** `createCategory`: the body's id is replaced by `newId` and the row inserted, created now. */
  function CreateOutcome(rows: map<string, Category>, body: CategoryBody, newId: string, now: int)
    : (r: Result<Category>)
    ensures r.Ok? <==> body.name.Some? && newId !in rows && !NameTaken(rows, body.name.value, newId)
    ensures r.Ok? ==> r.value == Category(newId, body.name.value, body.description, now, None)
    ensures !r.Ok? ==> r.Thrown?
  {
    if body.name.None? || newId in rows || NameTaken(rows, body.name.value, newId) then Thrown(RejectedMessage)
    else Ok(Category(newId, body.name.value, body.description, now, None))
  }

  /** The patch of `updateCategory`: a truthy name or description replaces the stored one, and
      `updatedAt` is always set. */
  function Patch(c: Category, body: CategoryBody, now: int): (r: Category)
    ensures r.id == c.id && r.createdAt == c.createdAt && r.updatedAt == Some(now)
    ensures r.name == (if Truthy(body.name) then body.name.value else c.name)
    ensures r.description == (if Truthy(body.description) then body.description else c.description)
  {
    c.(name := if Truthy(body.name) then body.name.value else c.name,
       description := if Truthy(body.description) then body.description else c.description,
       updatedAt := Some(now))
  }

  /** `updateCategory`: 404 for an unknown id, 400 without a body, otherwise the patched row,
      unless its new name belongs to another row. */
  function UpdateOutcome(rows: map<string, Category>, id: string, body: Option<CategoryBody>, now: int)
    : (r: Result<Category>)
    ensures id !in rows ==> r == Fail(404, NotFoundMessage(id))
    ensures id in rows && body.None? ==> r == Fail(400, NoDataMessage)
    ensures r.Ok? <==> id in rows && body.Some? && !NameTaken(rows, Patch(rows[id], body.value, now).name, id)
    ensures r.Ok? ==> r.value == Patch(rows[id], body.value, now)
  {
    if id !in rows then Fail(404, NotFoundMessage(id))
    else if body.None? then Fail(400, NoDataMessage)
    else
      var p := Patch(rows[id], body.value, now);
      if NameTaken(rows, p.name, id) then Thrown(RejectedMessage) else Ok(p)
  }

  /** `deleteCategory`: 404 for an unknown id; a category some sub-category refers to cannot
      be deleted. */
  function DeleteOutcome(rows: map<string, Category>, id: string, referenced: set<string>)
    : (r: Result<Category>)
    ensures r.Ok? <==> id in rows && id !in referenced
    ensures id !in rows ==> r == Fail(404, NotFoundMessage(id))
    ensures r.Ok? ==> r.value == rows[id]
  {
    if id !in rows then Fail(404, NotFoundMessage(id))
    else if id in referenced then Thrown(RejectedMessage)
    else Ok(rows[id])
  }

  /** The table after a create or update. */
  function Stored(rows: map<string, Category>, r: Result<Category>): map<string, Category> {
    if r.Ok? then rows[r.value.id := r.value] else rows
  }

  /** Creating keeps every row under its id and every name unique. */
  lemma CreateKeepsValid(rows: map<string, Category>, body: CategoryBody, newId: string, now: int)
    requires Valid(rows)
    ensures Valid(Stored(rows, CreateOutcome(rows, body, newId, now)))
  {
    var r := CreateOutcome(rows, body, newId, now);
    if r.Ok? {
      var s := Stored(rows, r);
      forall k | k in s
        ensures s[k].id == k && !NameTaken(s, s[k].name, k)
      {
        forall l | l in s && l != k
          ensures s[l].name != s[k].name
        {
        }
      }
    }
  }

  /** Updating keeps every row under its id and every name unique, and leaves the other rows
      as they were. */
  lemma UpdateKeepsValid(rows: map<string, Category>, id: string, body: Option<CategoryBody>, now: int)
    requires Valid(rows)
    ensures var s := Stored(rows, UpdateOutcome(rows, id, body, now));
      Valid(s) && s.Keys == rows.Keys && forall k :: k in rows && k != id ==> s[k] == rows[k]
  {
    var r := UpdateOutcome(rows, id, body, now);
    if r.Ok? {
      var s := Stored(rows, r);
      forall k | k in s
        ensures s[k].id == k && !NameTaken(s, s[k].name, k)
      {
        forall l | l in s && l != k
          ensures s[l].name != s[k].name
        {
        }
      }
    }
  }

  class CategoryTable {
    var rows: map<string, Category>

    constructor(initial: map<string, Category>)
      requires Valid(initial)
      ensures rows == initial
    {
      rows := initial;
    }

    /** `getCategoryById`. */
    method GetById(id: string) returns (r: Result<Category>)
      requires Valid(rows)
      ensures r == FindById(rows, id)
    {
      r := FindById(rows, id);
    }

    /** `createCategory`. */
    method Create(body: CategoryBody, newId: string, now: int) returns (r: Result<Category>)
      requires Valid(rows)
      modifies this
      ensures Valid(rows)
      ensures r == CreateOutcome(old(rows), body, newId, now)
      ensures rows == Stored(old(rows), r)
    {
      CreateKeepsValid(rows, body, newId, now);
      r := CreateOutcome(rows, body, newId, now);
      if r.Ok? {
        rows := rows[newId := r.value];
      }
    }

    /** `updateCategory`. */
    method Update(id: string, body: Option<CategoryBody>, now: int) returns (r: Result<Category>)
      requires Valid(rows)
      modifies this
      ensures Valid(rows)
      ensures r == UpdateOutcome(old(rows), id, body, now)
      ensures rows == Stored(old(rows), r)
    {
      UpdateKeepsValid(rows, id, body, now);
      if id !in rows {
        return Fail(404, NotFoundMessage(id));
      }
      if body.None? {
        return Fail(400, NoDataMessage);
      }
      var patched := Patch(rows[id], body.value, now);
      if NameTaken(rows, patched.name, id) {
        return Thrown(RejectedMessage);
      }
      rows := rows[id := patched];
      r := Ok(patched);
    }

    /** `deleteCategory`: exactly that row goes. */
    method Delete(id: string, referenced: set<string>) returns (r: Result<Category>)
      requires Valid(rows)
      modifies this
      ensures Valid(rows)
      ensures r == DeleteOutcome(old(rows), id, referenced)
      ensures rows == if r.Ok? then old(rows) - {id} else old(rows)
    {
      r := DeleteOutcome(rows, id, referenced);
      if r.Ok? {
        rows := rows - {id};
      }
    }
  }
}
