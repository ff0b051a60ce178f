/** The pagination arithmetic the routes share: the offset, the page of rows read
    (a clipped slice or an inclusive range), and the metadata sent back with it. */
module Pagination {
  import opened Wrappers
  import opened Numbers

  function Min(a: int, b: int): int {
    if a <= b then a else b
  }

  /** `searchParams.get(name) || fallback`: a missing or empty parameter takes the default. */
  function ParamOr(param: Option<string>, fallback: string): (r: string)
    ensures param.Some? && param.value != "" ==> r == param.value
    ensures param.None? || param.value == "" ==> r == fallback
  {
    if param.Some? && param.value != "" then param.value else fallback
  }

  /** `parseInt(searchParams.get(name) || fallback)`. */
  function IntParam(param: Option<string>, fallback: string): (r: Option<int>)
    ensures param.Some? && param.value != "" ==> r == ParseInt(param.value)
    ensures param.None? || param.value == "" ==> r == ParseInt(fallback)
  {
    ParseInt(ParamOr(param, fallback))
  }

  /** Absent or empty parameters read as the default; a numeral reads as its value. */
  lemma IntParamDefaults(n: nat, fallback: nat)
    ensures IntParam(None, Decimal(fallback)) == Some(fallback)
    ensures IntParam(Some(""), Decimal(fallback)) == Some(fallback)
    ensures IntParam(Some(Decimal(n)), Decimal(fallback)) == Some(n)
  {
    ParseIntDecimal(fallback);
    ParseIntDecimal(n);
  }

  /** `(page - 1) * limit`: the number of rows on the pages before `page`. */
  function Offset(page: int, limit: int): (offset: nat)
    requires page >= 1 && limit >= 1
    ensures offset == (page - 1) * limit
    ensures page == 1 <==> offset == 0
  {
    MulPositive(page - 1, limit);
    (page - 1) * limit
  }

  lemma MulPositive(a: nat, b: int)
    requires b >= 1
    ensures a * b >= 0 && (a * b == 0 <==> a == 0) && a * b >= a
  {
  }

  /** `records.slice(offset, offset + limit)`: the rows of page `page`, clipped to the list. */
  function PageSlice<T>(records: seq<T>, page: int, limit: int): (rows: seq<T>)
    requires page >= 1 && limit >= 1
    ensures |rows| == if Offset(page, limit) >= |records| then 0
                     else Min(limit, |records| - Offset(page, limit))
    ensures forall i :: 0 <= i < |rows| ==>
      Offset(page, limit) + i < |records| && rows[i] == records[Offset(page, limit) + i]
  {
    var start := Offset(page, limit);
    if start >= |records| then [] else records[start..Min(start + limit, |records|)]
  }

  /** `.range(offset, offset + limit - 1)`: an inclusive range of `limit` rows. */
  function InclusiveRange(page: int, limit: int): (range: (int, int))
    requires page >= 1 && limit >= 1
    ensures range.0 == Offset(page, limit)
    ensures range.1 - range.0 + 1 == limit
  {
    var offset := Offset(page, limit);
    (offset, offset + limit - 1)
  }

  /** Consecutive pages' ranges tile the rows: each starts right after the last ends. */
  lemma RangesTile(page: int, limit: int)
    requires page >= 1 && limit >= 1
    ensures InclusiveRange(page + 1, limit).0 == InclusiveRange(page, limit).1 + 1
  {
  }

  /** `Math.ceil(total / limit)`. */
  function TotalPages(total: nat, limit: int): (pages: nat)
    requires limit >= 1
    ensures pages * limit >= total
    ensures pages == 0 || (pages - 1) * limit < total
  {
    var q := (total + limit - 1) / limit;
    var r := (total + limit - 1) % limit;
    assert q * limit + r == total + limit - 1;
    assert (q - 1) * limit == q * limit - limit;
    q
  }

  lemma MulMonotonic(a: int, b: int, c: int)
    requires a <= b && c >= 0
    ensures a * c <= b * c
  {
  }

  /** `offset + limit < total`. */
  predicate HasNext(page: int, limit: int, total: nat)
    requires page >= 1 && limit >= 1
  {
    Offset(page, limit) + limit < total
  }

  /** There is a next page exactly when this page is not the last one. */
  lemma HasNextIffNotLast(page: int, limit: int, total: nat)
    requires page >= 1 && limit >= 1
    ensures HasNext(page, limit, total) <==> page < TotalPages(total, limit)
  {
    var pages := TotalPages(total, limit);
    assert Offset(page, limit) + limit == page * limit;
    if page < pages {
      MulMonotonic(page, pages - 1, limit);
    } else {
      MulMonotonic(pages, page, limit);
    }
  }

  /** Every row is on exactly one page: row `j` is row `j % limit` of page `j / limit + 1`,
      and that page is within the page count. */
  lemma RowOnItsPage<T>(records: seq<T>, limit: int, j: nat)
    requires limit >= 1 && j < |records|
    ensures 1 <= j / limit + 1 <= TotalPages(|records|, limit)
    ensures j % limit < |PageSlice(records, j / limit + 1, limit)|
    ensures PageSlice(records, j / limit + 1, limit)[j % limit] == records[j]
  {
    var page := j / limit + 1;
    assert Offset(page, limit) + j % limit == j;
    var pages := TotalPages(|records|, limit);
    if pages < page {
      MulMonotonic(pages, page - 1, limit);
    }
  }

  /** The metadata object the routes return. */
  datatype Meta = Meta(page: int, limit: int, total: nat, totalPages: nat, hasNext: bool, hasPrev: bool)

  function Metadata(page: int, limit: int, total: nat): (m: Meta)
    requires page >= 1 && limit >= 1
    ensures m.page == page && m.limit == limit && m.total == total
    ensures m.totalPages * limit >= total && (m.totalPages == 0 || (m.totalPages - 1) * limit < total)
    ensures m.hasNext <==> page < m.totalPages
    ensures m.hasPrev <==> page > 1
  {
    HasNextIffNotLast(page, limit, total);
    Meta(page, limit, total, TotalPages(total, limit), HasNext(page, limit, total), page > 1)
  }
}
