/**
 * Pagination shared by the list views and dashboards:
 * `totalPages = Math.ceil(n / perPage)`, the page slice
 * `list.slice((page - 1) * perPage, page * perPage)`, and the Previous /
 * Next / numbered-button page moves.
 */
module Paging {

  /** `Math.ceil(n / k)`. */
  function TotalPages(n: nat, k: nat): (t: nat)
    requires k > 0
    ensures t * k >= n
    ensures t == 0 || (t - 1) * k < n
    ensures t == 0 <==> n == 0
  {
    var t := (n + k - 1) / k;
    assert t * k + (n + k - 1) % k == n + k - 1;
    assert (t - 1) * k == t * k - k;
    t
  }

  function Clamp(i: int, n: nat): (r: nat)
    ensures r <= n
  {
    if i < 0 then (if n + i < 0 then 0 else n + i) else if i > n then n else i
  }

  /** Array.prototype.slice(start, end), negative indices counting from the end. */
  function JsSlice<T>(xs: seq<T>, start: int, end: int): (r: seq<T>)
    ensures |r| <= |xs|
    ensures 0 <= start <= |xs| && start <= end ==> r == xs[start..if end < |xs| then end else |xs|]
    ensures 0 <= end <= start ==> r == []
  {
    var s := Clamp(start, |xs|);
    var e := Clamp(end, |xs|);
    if e <= s then [] else xs[s..e]
  }

  /** The records shown on page `page` (counted from 1) of `perPage` each. */
  function Page<T>(xs: seq<T>, page: int, perPage: nat): (r: seq<T>)
    requires perPage > 0
    ensures |r| <= perPage
  {
    assert page * perPage - (page - 1) * perPage == perPage;
    JsSlice(xs, (page - 1) * perPage, page * perPage)
  }

  lemma MulMono(a: int, b: int, k: nat)
    requires a <= b
    ensures a * k <= b * k
  {
    assert b * k - a * k == (b - a) * k;
  }

  /** A page in 1..totalPages starts inside the list. */
  lemma PageStartInside(n: nat, page: int, perPage: nat)
    requires perPage > 0 && 1 <= page <= TotalPages(n, perPage)
    ensures 0 <= (page - 1) * perPage < n
  {
    MulMono(page - 1, TotalPages(n, perPage) - 1, perPage);
    MulMono(0, page - 1, perPage);
  }

  /** A page in 1..totalPages is the non-empty run of records it starts at. */
  lemma PageContents<T>(xs: seq<T>, page: int, perPage: nat)
    requires perPage > 0 && 1 <= page <= TotalPages(|xs|, perPage)
    ensures 0 <= (page - 1) * perPage < |xs|
    ensures Page(xs, page, perPage) ==
      xs[(page - 1) * perPage .. if page * perPage < |xs| then page * perPage else |xs|]
    ensures 0 < |Page(xs, page, perPage)|
  {
    PageStartInside(|xs|, page, perPage);
    assert page * perPage == (page - 1) * perPage + perPage;
  }

  /** Pages `from`, `from + 1`, …, totalPages, concatenated. */
  function PagesFrom<T>(xs: seq<T>, perPage: nat, from: nat): seq<T>
    requires perPage > 0 && from >= 1
    decreases TotalPages(|xs|, perPage) + 1 - from
  {
    if from > TotalPages(|xs|, perPage) then []
    else Page(xs, from, perPage) + PagesFrom(xs, perPage, from + 1)
  }

  /** A page followed by the rest of the list from its end is the list from its start. */
  lemma PageThenRest<T>(xs: seq<T>, lo: int, hi: int)
    requires 0 <= lo < |xs| && lo <= hi
    ensures JsSlice(xs, lo, hi) + xs[if hi < |xs| then hi else |xs|..] == xs[lo..]
  {
  }

  lemma {:induction false} PagesFromSuffix<T>(xs: seq<T>, perPage: nat, from: nat)
    requires perPage > 0 && 1 <= from <= TotalPages(|xs|, perPage) + 1
    ensures PagesFrom(xs, perPage, from) ==
      xs[if (from - 1) * perPage < |xs| then (from - 1) * perPage else |xs|..]
    decreases TotalPages(|xs|, perPage) + 1 - from
  {
    var t := TotalPages(|xs|, perPage);
    if from <= t {
      var lo := (from - 1) * perPage;
      var hi := from * perPage;
      assert hi == lo + perPage;
      assert (from + 1 - 1) * perPage == hi;
      PageStartInside(|xs|, from, perPage);
      PagesFromSuffix(xs, perPage, from + 1);
      PageThenRest(xs, lo, hi);
    } else {
      assert (from - 1) * perPage == t * perPage;
    }
  }

  /** Reading the pages 1..totalPages in order gives back the whole list. */
  lemma PagesConcatenate<T>(xs: seq<T>, perPage: nat)
    requires perPage > 0
    ensures PagesFrom(xs, perPage, 1) == xs
  {
    PagesFromSuffix(xs, perPage, 1);
  }

  /** Previous: `Math.max(p - 1, 1)`. */
  function PrevPage(p: int): (r: int)
    ensures r >= 1
    ensures r <= p || p < 1
    ensures p > 1 ==> r == p - 1
  {
    if p - 1 > 1 then p - 1 else 1
  }

  /** Next: `Math.min(p + 1, totalPages)`. */
  function NextPage(p: int, total: nat): (r: int)
    ensures r <= total
    ensures p < total ==> r == p + 1
    ensures 1 <= total && 0 <= p ==> 1 <= r
  {
    if p + 1 < total then p + 1 else total
  }

  /** `handlePageChange(page)`: take `page` only when it is in 1..totalPages. */
  function ChangePage(current: int, page: int, total: nat): (r: int)
    ensures 1 <= page <= total ==> r == page
    ensures !(1 <= page <= total) ==> r == current
  {
    if 1 <= page && page <= total then page else current
  }

  /** Page moves keep a page that is in 1..totalPages inside that range. */
  lemma PageMovesStayInRange(p: int, page: int, total: nat)
    requires 1 <= p <= total
    ensures 1 <= PrevPage(p) <= total
    ensures 1 <= NextPage(p, total) <= total
    ensures 1 <= ChangePage(p, page, total) <= total
  {
  }
}
