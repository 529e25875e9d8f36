/** The pagination arithmetic shared by the listings: `limit(pageSize).offset((page - 1) *
    pageSize)` on the query, and `Math.ceil(count / pageSize)` pages. Numbers come from
    `Number(...)`, so NaN is possible; None stands for NaN (and, for a page count, also for
    ±Infinity, which JSON writes as null like NaN). */
module Paging {
  import opened Common

  /** `Number(req.query.x)`: an absent parameter is `Number(undefined)`, which is NaN. With the
      extended (`qs`) query parser, a repeated key gives an array of two or more strings and a
      bracketed key an object, and `Number` of either is NaN as well. */
  function NumberParam(v: Option<QueryValue>): (r: Option<int>)
    ensures v.None? || v == Some(Structured) ==> r.None?
    ensures v.Some? && v.value.Text? ==> r == JsNumber(v.value.text)
  {
    match v
    case Some(Text(s)) => JsNumber(s)
    case _ => None
  }

  /** `Number(x)` with a default standing in for NaN, an absent parameter included. */
  function NumberOr(v: Option<QueryValue>, d: int): (r: int)
    ensures NumberParam(v).Some? ==> r == NumberParam(v).value
    ensures NumberParam(v).None? ==> r == d
  {
    match NumberParam(v)
    case Some(n) => n
    case None => d
  }

  /** `Math.ceil(x / d)`. */
  function CeilDiv(x: int, d: int): (r: int)
    requires d != 0
    ensures d > 0 ==> (r - 1) * d < x <= r * d
  {
    if d > 0 then (x + d - 1) / d else (-x - d - 1) / (-d)
  }

  /** `(page - 1) * pageSize`, None when either operand is NaN. */
  function OffsetValue(page: Option<int>, pageSize: Option<int>): Option<int> {
    if page.Some? && pageSize.Some? then Some((page.value - 1) * pageSize.value) else None
  }

  function Min(a: int, b: int): int {
    if a <= b then a else b
  }

  /** The number of rows an OFFSET skips: none for NaN or 0, which emit no OFFSET clause. */
  function Skipped(offset: Option<int>, available: nat): nat {
    if offset.Some? && offset.value > 0 then Min(offset.value, available) else 0
  }

  /** The rows `limit(limit).offset(offset)` returns. Drizzle emits LIMIT only for a non-negative
      number and OFFSET only for a non-zero one; PostgreSQL rejects a negative OFFSET. */
  function PageRows<T>(rows: seq<T>, offset: Option<int>, limit: Option<int>): (r: Result<seq<T>>)
    ensures r.Ok? <==> !(offset.Some? && offset.value < 0)
    ensures r.Ok? ==> Skipped(offset, |rows|) + |r.value| <= |rows|
    ensures r.Ok? ==> forall i :: 0 <= i < |r.value| ==> r.value[i] == rows[Skipped(offset, |rows|) + i]
    ensures r.Ok? && limit.Some? && limit.value >= 0
            ==> |r.value| == Min(limit.value, |rows| - Skipped(offset, |rows|))
    ensures r.Ok? && !(limit.Some? && limit.value >= 0)
            ==> |r.value| == |rows| - Skipped(offset, |rows|)
  {
    if offset.Some? && offset.value < 0 then Thrown("OFFSET must not be negative")
    else
      var rest := rows[Skipped(offset, |rows|)..];
      if limit.Some? && limit.value >= 0 then Ok(rest[..Min(limit.value, |rest|)]) else Ok(rest)
  }

  /** `Math.ceil(count / pageSize)`; NaN and ±Infinity (pageSize NaN or 0) are None. */
  function TotalPages(count: nat, pageSize: Option<int>): (r: Option<int>)
    ensures r.Some? <==> pageSize.Some? && pageSize.value != 0
  {
    if pageSize.Some? && pageSize.value != 0 then Some(CeilDiv(count, pageSize.value)) else None
  }

  /** The paginated response body. */
  datatype Page<T> = Page(items: seq<T>, currentPage: Option<int>, totalPages: Option<int>,
                          totalItems: nat, pageSize: Option<int>)

  /** The listing of `rows`, which are the matching rows in query order: a count of all of them
      and one page of them. */
  function Paginate<T>(rows: seq<T>, page: Option<int>, pageSize: Option<int>): (r: Result<Page<T>>)
    ensures r.Ok? ==> r.value.totalItems == |rows| && r.value.currentPage == page
                      && r.value.pageSize == pageSize
                      && r.value.totalPages == TotalPages(|rows|, pageSize)
    ensures r.Ok? <==> PageRows(rows, OffsetValue(page, pageSize), pageSize).Ok?
  {
    match PageRows(rows, OffsetValue(page, pageSize), pageSize)
    case Ok(items) => Ok(Page(items, page, TotalPages(|rows|, pageSize), |rows|, pageSize))
    case Fail(s, m) => Fail(s, m)
    case Thrown(m) => Thrown(m)
  }

  /** With a positive page size there are just enough pages for the rows, and none when there
      are no rows. */
  lemma TotalPagesBounds(count: nat, pageSize: int)
    requires pageSize >= 1
    ensures TotalPages(count, Some(pageSize)).Some?
    ensures var t := TotalPages(count, Some(pageSize)).value;
      t >= 0 && (t == 0 <==> count == 0) && (t - 1) * pageSize < count <= t * pageSize
  {
  }

  lemma MulLe(a: int, b: int, c: int)
    requires a <= b && c >= 0
    ensures a * c <= b * c
  {
  }

  /** Every row is on exactly one numbered page: row i is entry i % pageSize of page
      i / pageSize + 1, and that page number is within the page count. */
  lemma RowOnItsPage<T>(rows: seq<T>, pageSize: int, i: int)
    requires pageSize >= 1 && 0 <= i < |rows|
    ensures var p := Paginate(rows, Some(i / pageSize + 1), Some(pageSize));
      p.Ok? && i % pageSize < |p.value.items| && p.value.items[i % pageSize] == rows[i]
      && i / pageSize + 1 <= p.value.totalPages.value
  {
    var q := i / pageSize;
    var off := q * pageSize;
    DivMod(i, pageSize);
    MulLe(0, q, pageSize);
    assert OffsetValue(Some(q + 1), Some(pageSize)) == Some(off);
    assert Skipped(Some(off), |rows|) == off;
    TotalPagesBounds(|rows|, pageSize);
    var t := TotalPages(|rows|, Some(pageSize)).value;
    if t <= q {
      MulLe(t, q, pageSize);
    }
  }

  /** Without a page and a page size there is no LIMIT and no OFFSET: the one page holds every
      row, and the page count is NaN. */
  lemma Unpaged<T>(rows: seq<T>)
    ensures Paginate(rows, None, None) == Ok(Page(rows, None, None, |rows|, None))
  {
    assert rows[0..] == rows;
  }

  /** A page holds only rows it was cut from. */
  lemma PageFromRows<T>(rows: seq<T>, page: Option<int>, pageSize: Option<int>)
    requires Paginate(rows, page, pageSize).Ok?
    ensures forall x :: x in Paginate(rows, page, pageSize).value.items ==> x in rows
  {
    var k := PageIsSlice(rows, page, pageSize);
    var items := Paginate(rows, page, pageSize).value.items;
    forall x | x in items
      ensures x in rows
    {
      var i :| 0 <= i < |items| && items[i] == x;
      assert rows[k + i] == x;
    }
  }

  /** A page is a run of consecutive rows, starting after the rows the offset skips. */
  lemma PageIsSlice<T>(rows: seq<T>, page: Option<int>, pageSize: Option<int>) returns (k: nat)
    requires Paginate(rows, page, pageSize).Ok?
    ensures var items := Paginate(rows, page, pageSize).value.items;
      k + |items| <= |rows| && items == rows[k..k + |items|]
  {
    var items := Paginate(rows, page, pageSize).value.items;
    k := Skipped(OffsetValue(page, pageSize), |rows|);
    assert PageRows(rows, OffsetValue(page, pageSize), pageSize).value == items;
    assert items == rows[k..k + |items|];
  }

  /** A page after the last one is empty. */
  lemma PageAfterLast<T>(rows: seq<T>, page: int, pageSize: int)
    requires pageSize >= 1 && page >= 1
    requires page > TotalPages(|rows|, Some(pageSize)).value
    ensures Paginate(rows, Some(page), Some(pageSize)).Ok?
    ensures Paginate(rows, Some(page), Some(pageSize)).value.items == []
  {
    TotalPagesBounds(|rows|, pageSize);
    var t := TotalPages(|rows|, Some(pageSize)).value;
    MulLe(t, page - 1, pageSize);
    MulLe(0, page - 1, pageSize);
    assert Skipped(OffsetValue(Some(page), Some(pageSize)), |rows|) == |rows|;
  }
}
