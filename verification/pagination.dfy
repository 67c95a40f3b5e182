/** The page-number strip under the project grid: page 1, a window of two
    pages either side of the current page, the last page, and an ellipsis
    wherever pages are skipped; plus the Previous/Next guards. */
module Pagination {
  import opened Common

  /** One entry of the strip: a page link or the `'...'` marker. */
  datatype PageItem = Page(number: int) | Ellipsis

  /** How many pages either side of the current one are listed. */
  const Delta: int := 2

  function Max(a: int, b: int): int { if a < b then b else a }
  function Min(a: int, b: int): int { if a < b then a else b }

  /** The consecutive integers `lo, lo + 1, ..., hi` (empty when `lo > hi`),
      as the `for` loop over `i` pushes them. */
  function Range(lo: int, hi: int): (r: seq<int>)
    ensures |r| == if lo <= hi then hi - lo + 1 else 0
    ensures forall k :: 0 <= k < |r| ==> r[k] == lo + k
    decreases hi - lo
  {
    if lo > hi then [] else [lo] + Range(lo + 1, hi)
  }

  /** First and last page of the inner window. */
  function InnerLow(current: int): int { Max(2, current - Delta) }
  function InnerHigh(current: int, total: int): int { Min(total - 1, current + Delta) }

  /** The inner window as page links. */
  function InnerPages(current: int, total: int): seq<PageItem>
  {
    var ns := Range(InnerLow(current), InnerHigh(current, total));
    seq(|ns|, k requires 0 <= k < |ns| => Page(ns[k]))
  }

  /** True when a leading / trailing `'...'` is pushed. */
  predicate LeadingGap(current: int) { current - Delta > 2 }
  predicate TrailingGap(current: int, total: int) { current + Delta < total - 1 }

  /** `getVisiblePages()`. */
  function VisiblePages(current: int, total: int): seq<PageItem>
  {
    var lead := if LeadingGap(current) then [Page(1), Ellipsis] else [Page(1)];
    var trail := if TrailingGap(current, total) then [Ellipsis, Page(total)] else [Page(total)];
    lead + InnerPages(current, total) + trail
  }

  /** What the component renders: nothing for a single page (or none),
      otherwise the strip. */
  function Render(current: int, total: int): (r: Option<seq<PageItem>>)
    ensures r.None? <==> total <= 1
    ensures r.Some? ==> |r.value| >= 2 && r.value[0] == Page(1) && r.value[|r.value| - 1] == Page(total)
  {
    if total <= 1 then None else Some(VisiblePages(current, total))
  }

  /** The page the Previous control requests, if any. */
  function PreviousTarget(current: int): Option<int>
  {
    if current > 1 then Some(current - 1) else None
  }

  /** The page the Next control requests, if any. */
  function NextTarget(current: int, total: int): Option<int>
  {
    if current < total then Some(current + 1) else None
  }

  // ---------------------------------------------------------------------
  // Lemmas

  /** Where each kind of entry sits in the strip. */
  lemma Shape(current: int, total: int)
    ensures var r := VisiblePages(current, total);
      var a := if LeadingGap(current) then 2 else 1;
      var n := |InnerPages(current, total)|;
      && |r| == a + n + (if TrailingGap(current, total) then 2 else 1)
      && r[0] == Page(1)
      && r[|r| - 1] == Page(total)
      && (LeadingGap(current) ==> r[1] == Ellipsis)
      && (TrailingGap(current, total) ==> r[|r| - 2] == Ellipsis)
      && (forall k :: a <= k < a + n ==> r[k] == Page(InnerLow(current) + k - a))
  {
  }

  /** Page numbers in the strip strictly increase, so no page is listed twice. */
  lemma NumbersIncrease(current: int, total: int)
    requires total >= 2
    ensures var r := VisiblePages(current, total);
      forall i, j :: 0 <= i < j < |r| && r[i].Page? && r[j].Page? ==> r[i].number < r[j].number
  {
    Shape(current, total);
  }

  /** Exactly page 1, the last page and the window
      `[max(2, c - 2) .. min(T - 1, c + 2)]` are listed. */
  lemma ListedPages(current: int, total: int)
    requires total >= 2
    ensures var r := VisiblePages(current, total);
      forall n :: Page(n) in r <==>
        n == 1 || n == total || InnerLow(current) <= n <= InnerHigh(current, total)
  {
    var r := VisiblePages(current, total);
    Shape(current, total);
    var a := if LeadingGap(current) then 2 else 1;
    forall n | InnerLow(current) <= n <= InnerHigh(current, total)
      ensures Page(n) in r
    {
      assert r[a + n - InnerLow(current)] == Page(n);
    }
  }

  /** The window holds at most five pages, so the strip has at most nine entries. */
  lemma StripBounded(current: int, total: int)
    ensures |InnerPages(current, total)| <= 2 * Delta + 1
    ensures |VisiblePages(current, total)| <= 2 * Delta + 5
  {
  }

  /** Every page link of the strip lies in `[1, total]`. */
  lemma LinksInRange(current: int, total: int)
    requires total >= 2
    ensures forall item :: item in VisiblePages(current, total) && item.Page? ==> 1 <= item.number <= total
  {
    Shape(current, total);
  }

  /** For a current page in range: a leading `'...'` appears iff
      `c - 2 > 2` and a trailing one iff `c + 2 < T - 1`. */
  lemma EllipsisPlacement(current: int, total: int)
    requires 1 <= current <= total && total >= 2
    ensures var r := VisiblePages(current, total);
      && (r[1] == Ellipsis <==> current - Delta > 2)
      && (r[|r| - 2] == Ellipsis <==> current + Delta < total - 1)
  {
    Shape(current, total);
  }

  /** For a current page in range, the current page is listed. */
  lemma CurrentListed(current: int, total: int)
    requires 1 <= current <= total && total >= 2
    ensures Page(current) in VisiblePages(current, total)
  {
    var r := VisiblePages(current, total);
    Shape(current, total);
    var a := if LeadingGap(current) then 2 else 1;
    if 1 < current < total {
      assert r[a + current - InnerLow(current)] == Page(current);
    }
  }

  /** Neighbouring links in the strip are consecutive pages. */
  lemma LinksConsecutive(current: int, total: int)
    requires 1 <= current <= total && total >= 2
    ensures var r := VisiblePages(current, total);
      forall i :: 0 <= i < |r| - 1 && r[i].Page? && r[i + 1].Page? ==> r[i + 1].number == r[i].number + 1
  {
    Shape(current, total);
  }

  /** Each `'...'` stands between two links that skip at least one page. */
  lemma EllipsesBetween(current: int, total: int)
    requires 1 <= current <= total && total >= 2
    ensures var r := VisiblePages(current, total);
      forall i :: 0 <= i < |r| && r[i] == Ellipsis ==>
        0 < i < |r| - 1 && r[i - 1].Page? && r[i + 1].Page? && r[i + 1].number > r[i - 1].number + 1
  {
    Shape(current, total);
  }

  /** For a current page in range, the current page is listed, neighbouring
      links are consecutive pages, and each `'...'` stands between two links
      that skip at least one page. */
  lemma GapsAreMarked(current: int, total: int)
    requires 1 <= current <= total && total >= 2
    ensures var r := VisiblePages(current, total);
      && Page(current) in r
      && (forall i :: 0 <= i < |r| - 1 && r[i].Page? && r[i + 1].Page? ==> r[i + 1].number == r[i].number + 1)
      && (forall i :: 0 <= i < |r| && r[i] == Ellipsis ==>
            0 < i < |r| - 1 && r[i - 1].Page? && r[i + 1].Page? && r[i + 1].number > r[i - 1].number + 1)
  {
    CurrentListed(current, total);
    LinksConsecutive(current, total);
    EllipsesBetween(current, total);
  }

  /** Previous and Next only request pages in `[1, total]`, and each is
      offered exactly when such a page exists on its side. */
  lemma NavigationStaysInRange(current: int, total: int)
    requires 1 <= current <= total
    ensures PreviousTarget(current).Some? <==> current > 1
    ensures NextTarget(current, total).Some? <==> current < total
    ensures PreviousTarget(current).Some? ==> 1 <= PreviousTarget(current).value < current
    ensures NextTarget(current, total).Some? ==> current < NextTarget(current, total).value <= total
  {
  }

  /** Outside `[1, total]` the strip can mark a gap that is not there: with
      two pages and current page 10 an ellipsis separates pages 1 and 2. */
  lemma OutOfRangeCurrentPage()
    ensures VisiblePages(10, 2) == [Page(1), Ellipsis, Page(2)]
  {
    assert InnerPages(10, 2) == [];
  }
}
