/** The numbered page buttons of the report pages and the dashboard: at most five
    consecutive pages around the current one, the "… last page" link, and the
    dashboard's "Showing a to b of n" line. */
module PageWindow {
  import opened Pagination

  const Buttons := 5

  /** The page number on button `i`. */
  function ButtonPage(current: int, totalPages: nat, i: nat): int {
    if totalPages <= Buttons then i + 1
    else if current <= 3 then i + 1
    else if current >= totalPages - 2 then totalPages - 4 + i
    else current - 2 + i
  }

  /** `Array.from({length: Math.min(5, totalPages)}, ...)`. */
  function Window(current: int, totalPages: nat): (w: seq<int>)
    ensures |w| == Min(Buttons, totalPages)
    ensures forall i :: 0 <= i < |w| ==> 1 <= w[i] <= totalPages
    ensures forall i :: 0 < i < |w| ==> w[i] == w[i - 1] + 1
    ensures 1 <= current <= totalPages ==> current in w
  {
    var w := seq(Min(Buttons, totalPages), i requires 0 <= i => ButtonPage(current, totalPages, i));
    var k := if totalPages <= Buttons || current <= 3 then current - 1
             else if current >= totalPages - 2 then current - totalPages + 4
             else 2;
    assert 1 <= current <= totalPages ==> 0 <= k < |w| && w[k] == current;
    w
  }

  /** The window is drawn only when there is more than one page. */
  predicate ShowsWindow(totalPages: nat) {
    totalPages > 1
  }

  /** `totalPages > 5 && page < totalPages - 2`: the "…" and last-page link. */
  predicate ShowsLastPageLink(page: int, totalPages: nat) {
    totalPages > Buttons && page < totalPages - 2
  }

  /** With more than five pages, the last-page link is drawn exactly when the last
      page is not among the buttons. */
  lemma LastPageLinkIffHidden(page: int, totalPages: nat)
    requires totalPages > Buttons && 1 <= page <= totalPages
    ensures ShowsLastPageLink(page, totalPages) <==> totalPages !in Window(page, totalPages)
  {
    var w := Window(page, totalPages);
    if !ShowsLastPageLink(page, totalPages) {
      assert w[4] == totalPages;
    } else {
      assert forall i :: 0 <= i < |w| ==> w[i] < totalPages;
    }
  }

  /** First and last row numbers of "Showing a to b of n". */
  function ShowingFrom(page: int, limit: int): int
    requires page >= 1 && limit >= 1
  {
    (page - 1) * limit + 1
  }

  function ShowingTo(page: int, limit: int, total: nat): int {
    Min(page * limit, total)
  }

  /** On a page that has rows, the line counts exactly the rows the groups route sends. */
  lemma ShowingCountsPageRows<T>(records: seq<T>, page: int, limit: int)
    requires page >= 1 && limit >= 1 && Offset(page, limit) < |records|
    ensures ShowingTo(page, limit, |records|) - ShowingFrom(page, limit) + 1
         == |PageSlice(records, page, limit)|
    ensures ShowingFrom(page, limit) == Offset(page, limit) + 1
  {
    assert page * limit == Offset(page, limit) + limit;
  }
}
