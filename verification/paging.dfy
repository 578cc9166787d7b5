/**
 * The pagination shared by the admin product list, the customer list and the
 * order history: `Math.ceil(n / itemsPerPage)` pages, the page slice
 * `slice((currentPage - 1) * itemsPerPage, currentPage * itemsPerPage)`, the
 * bounded `goToPage` and the three-wide window of page buttons.
 */
module Paging {

  /** Number of page buttons `getVisiblePages` shows at most. */
  const MaxVisible := 3

  /** `Math.ceil(n / perPage)`. */
  function TotalPages(n: nat, perPage: nat): (r: nat)
    requires perPage > 0
    ensures n <= r * perPage
    ensures r > 0 ==> (r - 1) * perPage < n
    ensures r == 0 <==> n == 0
  {
    var r := (n + perPage - 1) / perPage;
    assert r * perPage <= n + perPage - 1 < (r + 1) * perPage;
    r
  }

  /** A `slice` bound resolved against the length: negative bounds count from the end. */
  function SliceBound(i: int, len: nat): (r: nat)
    ensures r <= len
    ensures 0 <= i ==> r == if i < len then i else len
  {
    if i < 0 then (if len + i < 0 then 0 else len + i)
    else if i > len then len
    else i
  }

  /** `Array.prototype.slice(start, end)`. */
  function JsSlice<T>(xs: seq<T>, start: int, end: int): seq<T> {
    var s := SliceBound(start, |xs|);
    var e := SliceBound(end, |xs|);
    if e <= s then [] else xs[s..e]
  }

  /** A window of `len` items from a non-negative `start`, as `slice(start, start + len)` gives it. */
  lemma SliceWindow<T>(xs: seq<T>, start: nat, len: nat)
    ensures var r := JsSlice(xs, start, start + len);
      && |r| <= len
      && (forall j :: 0 <= j < |r| ==> start + j < |xs| && r[j] == xs[start + j])
      && (start >= |xs| ==> r == [])
      && (start < |xs| ==> |r| == if start + len <= |xs| then len else |xs| - start)
  {
  }

  /** The first index of a page. */
  function PageStart(page: int, perPage: nat): int {
    (page - 1) * perPage
  }

  /** `updatePaginated…`: the items of page `page`. */
  function PageSlice<T>(xs: seq<T>, page: int, perPage: nat): (r: seq<T>)
    requires perPage > 0
    ensures page >= 1 ==> |r| <= perPage
    ensures page >= 1 ==> forall j :: 0 <= j < |r| ==>
      PageStart(page, perPage) + j < |xs| && r[j] == xs[PageStart(page, perPage) + j]
    ensures page >= 1 && PageStart(page, perPage) >= |xs| ==> r == []
    ensures page >= 1 && PageStart(page, perPage) < |xs| ==>
      |r| == if PageStart(page, perPage) + perPage <= |xs| then perPage else |xs| - PageStart(page, perPage)
  {
    var start := PageStart(page, perPage);
    if page >= 1 then
      assert start >= 0 by { MulMonotone(0, page - 1, perPage); }
      SliceWindow(xs, start, perPage);
      JsSlice(xs, start, start + perPage)
    else JsSlice(xs, start, start + perPage)
  }

  lemma MulMonotone(a: int, b: int, k: nat)
    requires a <= b
    ensures a * k <= b * k
  {
    assert b * k - a * k == (b - a) * k;
  }

  lemma DivModSplit(i: nat, k: nat)
    requires k > 0
    ensures PageStart(i / k + 1, k) + i % k == i
    ensures 0 <= i % k < k
  {
    assert PageStart(i / k + 1, k) == (i / k) * k;
  }

  /** Item `i` appears on page `i / perPage + 1`, at position `i % perPage`, and that page exists. */
  lemma ItemOnItsPage<T>(xs: seq<T>, i: nat, perPage: nat)
    requires perPage > 0 && i < |xs|
    ensures 1 <= i / perPage + 1 <= TotalPages(|xs|, perPage)
    ensures i % perPage < |PageSlice(xs, i / perPage + 1, perPage)|
    ensures PageSlice(xs, i / perPage + 1, perPage)[i % perPage] == xs[i]
  {
    var p := i / perPage + 1;
    DivModSplit(i, perPage);
    var t := TotalPages(|xs|, perPage);
    if t < p {
      MulMonotone(t, p - 1, perPage);
      assert false;
    }
  }

  /** Pages past the last one are empty. */
  lemma PastLastPageIsEmpty<T>(xs: seq<T>, page: int, perPage: nat)
    requires perPage > 0 && page > TotalPages(|xs|, perPage)
    ensures PageSlice(xs, page, perPage) == []
  {
    MulMonotone(TotalPages(|xs|, perPage), page - 1, perPage);
  }

  /** `goToPage`: moves to `page` only when it is between 1 and the page count. */
  function GoToPage(current: int, page: int, totalPages: int): (r: int)
    ensures 1 <= page <= totalPages ==> r == page
    ensures !(1 <= page <= totalPages) ==> r == current
    ensures 1 <= current ==> 1 <= r
  {
    if page >= 1 && page <= totalPages then page else current
  }

  /** The consecutive pages `lo`, `lo + 1`, ..., `hi` (empty when `hi < lo`). */
  function Range(lo: int, hi: int): (r: seq<int>)
    ensures |r| == if hi < lo then 0 else hi - lo + 1
    ensures forall j :: 0 <= j < |r| ==> r[j] == lo + j
  {
    if hi < lo then [] else seq(hi - lo + 1, j => lo + j)
  }

  function Clamp(x: int, lo: int, hi: int): int
    requires lo <= hi
  {
    if x < lo then lo else if x > hi then hi else x
  }

  /**
   * The window the page buttons should show: all pages when there are at most
   * three, otherwise the three pages centred on the current one, pushed back
   * inside the first and last page.
   */
  function IntendedWindow(totalPages: int, currentPage: int): seq<int> {
    if totalPages <= MaxVisible then Range(1, totalPages)
    else
      var s := Clamp(currentPage - 1, 1, totalPages - 2);
      [s, s + 1, s + 2]
  }

  /** `getVisiblePages`. */
  method VisiblePages(totalPages: int, currentPage: int) returns (pages: seq<int>)
    ensures pages == IntendedWindow(totalPages, currentPage)
    ensures totalPages <= MaxVisible ==> pages == Range(1, totalPages)
    ensures totalPages > MaxVisible ==>
      && |pages| == MaxVisible
      && 1 <= pages[0] && pages[MaxVisible - 1] <= totalPages
      && forall j :: 0 < j < |pages| ==> pages[j] == pages[j - 1] + 1
    ensures totalPages > MaxVisible && 1 <= currentPage <= totalPages ==> currentPage in pages
  {
    pages := [];
    if totalPages <= MaxVisible {
      var i := 0;
      while i < totalPages
        invariant 0 <= i <= if totalPages < 0 then 0 else totalPages
        invariant pages == Range(1, i)
      {
        pages := pages + [i + 1];
        i := i + 1;
      }
      return;
    }
    var startPage := if 1 > currentPage - 1 then 1 else currentPage - 1;
    var endPage := if totalPages < startPage + MaxVisible - 1 then totalPages else startPage + MaxVisible - 1;
    if endPage - startPage < MaxVisible - 1 {
      startPage := if 1 > endPage - MaxVisible + 1 then 1 else endPage - MaxVisible + 1;
    }
    var i := startPage;
    while i <= endPage
      invariant startPage <= i <= endPage + 1
      invariant pages == Range(startPage, i - 1)
    {
      pages := pages + [i];
      i := i + 1;
    }
    assert pages == Range(startPage, endPage);
  }

  /** What a list page shows after `applyFilters`/`goToPage`: the filtered items and the current page of them. */
  datatype Listing<T> = Listing(filtered: seq<T>, currentPage: int, totalPages: nat, paginated: seq<T>)

  /** The page count and the shown page agree with the filtered items. */
  ghost predicate Coherent<T>(l: Listing<T>, perPage: nat)
    requires perPage > 0
  {
    && l.totalPages == TotalPages(|l.filtered|, perPage)
    && l.paginated == PageSlice(l.filtered, l.currentPage, perPage)
  }

  /** The tail of `applyFilters`: store the filtered items, recount the pages and re-slice the current page. */
  function Publish<T>(filtered: seq<T>, currentPage: int, perPage: nat): (l: Listing<T>)
    requires perPage > 0
    ensures Coherent(l, perPage)
    ensures l.filtered == filtered && l.currentPage == currentPage
  {
    Listing(filtered, currentPage, TotalPages(|filtered|, perPage), PageSlice(filtered, currentPage, perPage))
  }

  /** `goToPage` on a listing: only a page between 1 and the page count is shown. */
  function GoTo<T>(l: Listing<T>, page: int, perPage: nat): (r: Listing<T>)
    requires perPage > 0
    ensures Coherent(l, perPage) ==> Coherent(r, perPage)
    ensures 1 <= page <= l.totalPages ==> r.currentPage == page && r.paginated == PageSlice(l.filtered, page, perPage)
    ensures !(1 <= page <= l.totalPages) ==> r == l
    ensures r.filtered == l.filtered && r.totalPages == l.totalPages
  {
    if page >= 1 && page <= l.totalPages
    then l.(currentPage := page, paginated := PageSlice(l.filtered, page, perPage))
    else l
  }

  /** On an accepted page the shown slice is full-length unless it is the last page, and never empty. */
  lemma AcceptedPageIsNonEmpty<T>(l: Listing<T>, page: int, perPage: nat)
    requires perPage > 0 && Coherent(l, perPage) && 1 <= page <= l.totalPages
    ensures 0 < |GoTo(l, page, perPage).paginated| <= perPage
    ensures page < l.totalPages ==> |GoTo(l, page, perPage).paginated| == perPage
  {
    MulMonotone(page - 1, l.totalPages - 1, perPage);
    assert PageStart(page, perPage) < |l.filtered|;
    if page < l.totalPages {
      MulMonotone(page, l.totalPages - 1, perPage);
      assert PageStart(page, perPage) + perPage == page * perPage;
    }
  }
}
