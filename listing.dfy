/**
 * The `GET` half of app/api/blogs/route.ts and app/api/projects/route.ts:
 * page arithmetic, and the `where` object assembled one field at a time
 * from the query string. Rows are reduced to what the filter looks at.
 */
module Listing {
  import opened Opt
  import opened Text

  datatype Pagination = Pagination(page: int, limit: int, total: nat, totalPages: nat, hasNext: bool, hasPrev: bool)

  /** `(page - 1) * limit`: how many rows the page skips. */
  function Skip(page: int, limit: int): int {
    (page - 1) * limit
  }

  /** `Math.ceil(total / limit)`. */
  function TotalPages(total: nat, limit: int): (pages: nat)
    requires limit > 0
    ensures pages * limit >= total
    ensures pages == 0 || (pages - 1) * limit < total
    ensures pages == 0 <==> total == 0
  {
    var q := (total + limit - 1) / limit;
    assert q * limit + (total + limit - 1) % limit == total + limit - 1;
    q
  }

  function Paginate(page: int, limit: int, total: nat): (p: Pagination)
    requires limit > 0
    ensures p.page == page && p.limit == limit && p.total == total
    ensures p.totalPages == TotalPages(total, limit)
    ensures p.hasNext <==> page < p.totalPages
    ensures p.hasPrev <==> page > 1
  {
    var totalPages := TotalPages(total, limit);
    Pagination(page, limit, total, totalPages, page < totalPages, page > 1)
  }

  /**
   * The pagination the route sends. `findMany` runs before the pagination
   * object is built, and Prisma refuses a negative `skip`: for a page below 1
   * the handler ends in its `catch` block with 500 and sends no pagination.
   */
  function Listed(page: int, limit: int, total: nat): (r: Option<Pagination>)
    requires limit > 0
    ensures r.Some? <==> page >= 1
    ensures r.Some? ==> r.value == Paginate(page, limit, total)
  {
    if Skip(page, limit) < 0 then None else Some(Paginate(page, limit, total))
  }

  lemma MulLeft(a: int, b: int, c: int)
    requires a <= b && c > 0
    ensures a * c <= b * c
  {
  }

  /** There is a next page exactly when rows remain after this one. */
  lemma HasNextIffRowsRemain(page: int, limit: int, total: nat)
    requires limit > 0
    ensures Paginate(page, limit, total).hasNext <==> Skip(page, limit) + limit < total
  {
    var n := TotalPages(total, limit);
    assert Skip(page, limit) + limit == page * limit;
    if page < n {
      MulLeft(page, (n as int) - 1, limit);
    } else {
      MulLeft(n, page, limit);
    }
  }

  /**
   * An empty table has no pages, and the formula gives no next page for any
   * page number from 0 up; page 0 itself is never answered with pagination.
   */
  lemma EmptyHasNoNext(page: int, limit: int)
    requires limit > 0 && page >= 0
    ensures !Paginate(page, limit, 0).hasNext
    ensures Paginate(page, limit, 0).totalPages == 0
    ensures page == 0 ==> Listed(page, limit, 0) == None
  {
  }

  /**
   * `page` is not checked before the query: for page -1 the formula would
   * report a next page even for an empty table, but the skip is negative, so
   * Prisma refuses the query and that pagination is never sent.
   */
  lemma NegativePageClaimsNext(limit: int)
    requires limit > 0
    ensures Paginate(-1, limit, 0).hasNext
    ensures Skip(-1, limit) == -2 * limit
    ensures Listed(-1, limit, 0) == None
  {
  }

  /** Every row lies on exactly one page between 1 and `totalPages`. */
  lemma RowOnPage(row: nat, limit: int, total: nat)
    requires limit > 0 && row < total
    ensures var page := row / limit + 1;
      1 <= page <= TotalPages(total, limit) && Skip(page, limit) <= row < Skip(page, limit) + limit
  {
    var page := row / limit + 1;
    assert Skip(page, limit) == (row / limit) * limit;
    assert (row / limit) * limit + row % limit == row;
    var n := TotalPages(total, limit);
    if page > n {
      MulLeft(n, row / limit, limit);
    }
  }

  /** The query-string filters: `status`, a boolean flag, `isFeatured` and `search`. */
  datatype Query = Query(status: Option<string>, flag: Option<string>, featured: Option<string>, search: Option<string>)

  /** The `where` object; absent fields impose nothing. */
  datatype Where = Where(status: Option<string>, flag: Option<bool>, featured: Option<bool>, search: Option<string>)

  /** What the filter sees of a row: its status, its flag, `isFeatured` and the searchable texts. */
  datatype Row = Row(status: string, flag: bool, featured: bool, texts: seq<string>)

  predicate Truthy(v: Option<string>) { v.Some? && v.value != "" }

  /** `where` as the handler leaves it. */
  function WhereOf(q: Query): Where {
    Where(if Truthy(q.status) then q.status else None,
          if q.flag.Some? then Some(q.flag.value == "true") else None,
          if q.featured.Some? then Some(q.featured.value == "true") else None,
          if Truthy(q.search) then q.search else None)
  }

  /** The field assignments `if (status) where.status = status; …` one after another. */
  method BuildWhere(q: Query) returns (w: Where)
    ensures w == WhereOf(q)
  {
    w := Where(None, None, None, None);
    if Truthy(q.status) {
      w := w.(status := q.status);
    }
    if q.flag.Some? {
      w := w.(flag := Some(q.flag.value == "true"));
    }
    if q.featured.Some? {
      w := w.(featured := Some(q.featured.value == "true"));
    }
    if Truthy(q.search) {
      w := w.(search := q.search);
    }
  }

  /** `contains` with `mode: 'insensitive'`, over ASCII. */
  predicate Mentions(text: string, term: string) {
    Contains(ToLower(text), ToLower(term))
  }

  /** The rows the database returns for `w`: every present field must hold, and the `OR` over the texts. */
  predicate Matches(w: Where, row: Row) {
    (w.status.Some? ==> row.status == w.status.value) &&
    (w.flag.Some? ==> row.flag == w.flag.value) &&
    (w.featured.Some? ==> row.featured == w.featured.value) &&
    (w.search.Some? ==> exists k :: 0 <= k < |row.texts| && Mentions(row.texts[k], w.search.value))
  }

  /** Without parameters nothing is filtered; an empty `search` or `status` is the same as none. */
  lemma NoParamsKeepAll(row: Row)
    ensures Matches(WhereOf(Query(None, None, None, None)), row)
    ensures Matches(WhereOf(Query(Some(""), None, None, Some(""))), row)
  {
  }

  /** A present flag selects exactly the rows whose flag equals `value === 'true'`. */
  lemma FlagIsExact(q: Query, row: Row)
    requires q.flag.Some? && q.status.None? && q.featured.None? && q.search.None?
    ensures Matches(WhereOf(q), row) <==> row.flag == (q.flag.value == "true")
  {
  }

  /** A non-empty search alone keeps a row exactly when one of its texts mentions the term. */
  lemma SearchIsOneDisjunction(term: string, row: Row)
    requires term != ""
    ensures Matches(WhereOf(Query(None, None, None, Some(term))), row)
      <==> exists k :: 0 <= k < |row.texts| && Mentions(row.texts[k], term)
  {
  }

  /** Adding a parameter only narrows the result. */
  lemma MoreParamsNarrow(q: Query, search: string, row: Row)
    requires q.search.None?
    ensures Matches(WhereOf(q.(search := Some(search))), row) ==> Matches(WhereOf(q), row)
  {
  }
}
