/**
 * The pagination bar under the listing: the strip of page numbers with
 * "..." markers, the "showing a - b of n" line, the previous/next buttons
 * and the links they follow. The bar is shown only when there are at least
 * two pages, which is the condition most lemmas here assume.
 */
module Pagination {
  import opened Wrappers
  import opened JsText
  import opened Listing
  import opened PropertiesPage

  /** Pages shown on each side of the current one. */
  const Delta: int := 2

  /** An entry of the strip: a page button or the "..." marker. */
  datatype PageItem = Num(n: int) | Dots

  /** First neighbour shown: `Math.max(2, currentPage - delta)`. */
  function Lo(current: int): int {
    if current - Delta > 2 then current - Delta else 2
  }

  /** Last neighbour shown: `Math.min(totalPages - 1, currentPage + delta)`. */
  function Hi(current: int, total: int): int {
    if total - 1 < current + Delta then total - 1 else current + Delta
  }

  /** The buttons for pages `Lo(current)..Hi(current, total)`. */
  function Neighbours(current: int, total: int): (r: seq<PageItem>)
    ensures |r| == if Lo(current) <= Hi(current, total) then Hi(current, total) - Lo(current) + 1 else 0
    ensures forall i :: 0 <= i < |r| ==> r[i] == Num(Lo(current) + i)
  {
    var n := if Lo(current) <= Hi(current, total) then Hi(current, total) - Lo(current) + 1 else 0;
    seq(n, i => Num(Lo(current) + i))
  }

  /** Page 1, followed by a marker when the neighbours start after page 3. */
  function Leading(current: int): seq<PageItem> {
    if current - Delta > 2 then [Num(1), Dots] else [Num(1)]
  }

  /** A marker and the last page when the neighbours end before it with a gap; else the last page when there are two or more. */
  function Trailing(current: int, total: int): seq<PageItem> {
    if current + Delta < total - 1 then [Dots, Num(total)]
    else if total > 1 then [Num(total)]
    else []
  }

  /** The strip with both markers in place: the intended output. */
  function PageItems(current: int, total: int): (items: seq<PageItem>)
    ensures |items| >= 1 && items[0] == Num(1)
    ensures total >= 2 ==> items[|items| - 1] == Num(total)
  {
    Leading(current) + Neighbours(current, total) + Trailing(current, total)
  }

  predicate Distinct(s: seq<PageItem>) {
    forall i, j :: 0 <= i < j < |s| ==> s[i] != s[j]
  }

  /** Page numbers appear in strictly increasing order. */
  predicate Increasing(s: seq<PageItem>) {
    forall i, j :: 0 <= i < j < |s| && s[i].Num? && s[j].Num? ==> s[i].n < s[j].n
  }

  /** Two page buttons side by side are consecutive pages: every skipped page sits behind a marker. */
  predicate NoSilentGap(s: seq<PageItem>) {
    forall i :: 0 <= i < |s| - 1 && s[i].Num? && s[i + 1].Num? ==> s[i + 1].n == s[i].n + 1
  }

  /** `filter((item, index) => indexOf(item) === index)`: each entry's first occurrence, in order. */
  function Dedup(s: seq<PageItem>): (r: seq<PageItem>)
    ensures forall x :: x in r <==> x in s
    ensures Distinct(r)
    ensures |r| <= |s|
  {
    if s == [] then []
    else
      var init := s[..|s| - 1];
      var r := Dedup(init);
      assert forall x :: x in s <==> x in init || x == s[|s| - 1] by {
        assert s == init + [s[|s| - 1]];
      }
      if s[|s| - 1] in init then r else r + [s[|s| - 1]]
  }

  lemma {:induction false} DedupOfDistinct(s: seq<PageItem>)
    requires Distinct(s)
    ensures Dedup(s) == s
  {
    if s != [] {
      var init := s[..|s| - 1];
      DedupOfDistinct(init);
      assert s == init + [s[|s| - 1]];
    }
  }

  /** The strip the component renders: `PageItems` after the de-duplication filter. */
  function PageItemsAsWritten(current: int, total: int): seq<PageItem> {
    Dedup(PageItems(current, total))
  }

  /** The strip of a bar with at least two pages, in the layout both versions share. */
  ghost predicate Layout(s: seq<PageItem>, current: int, total: int) {
    && |s| >= 2
    && s[0] == Num(1)
    && s[|s| - 1] == Num(total)
    && Increasing(s)
    && (forall k :: Num(k) in s <==> k == 1 || k == total || Lo(current) <= k <= Hi(current, total))
    && (1 <= current <= total ==> Num(current) in s)
  }

  lemma IncreasingConcat(a: seq<PageItem>, b: seq<PageItem>)
    requires Increasing(a) && Increasing(b)
    requires forall x, y :: x in a && y in b && x.Num? && y.Num? ==> x.n < y.n
    ensures Increasing(a + b)
  {
    var s := a + b;
    forall i, j | 0 <= i < j < |s| && s[i].Num? && s[j].Num? ensures s[i].n < s[j].n {
      if j < |a| {
        assert s[i] == a[i] && s[j] == a[j];
      } else if i >= |a| {
        assert s[i] == b[i - |a|] && s[j] == b[j - |a|];
      } else {
        assert s[i] in a && s[j] in b;
      }
    }
  }

  lemma DistinctConcat(a: seq<PageItem>, b: seq<PageItem>)
    requires Distinct(a) && Distinct(b)
    requires forall x :: x in a ==> x !in b
    ensures Distinct(a + b)
  {
    var s := a + b;
    forall i, j | 0 <= i < j < |s| ensures s[i] != s[j] {
      if j < |a| {
        assert s[i] == a[i] && s[j] == a[j];
      } else if i >= |a| {
        assert s[i] == b[i - |a|] && s[j] == b[j - |a|];
      } else {
        assert s[i] in a && s[j] in b;
      }
    }
  }

  lemma NoSilentGapConcat(a: seq<PageItem>, b: seq<PageItem>)
    requires NoSilentGap(a) && NoSilentGap(b)
    requires a != [] && b != [] && a[|a| - 1].Num? && b[0].Num? ==> b[0].n == a[|a| - 1].n + 1
    ensures NoSilentGap(a + b)
  {
    var s := a + b;
    forall i | 0 <= i < |s| - 1 && s[i].Num? && s[i + 1].Num? ensures s[i + 1].n == s[i].n + 1 {
      if i + 1 < |a| {
        assert s[i] == a[i] && s[i + 1] == a[i + 1];
      } else if i >= |a| {
        assert s[i] == b[i - |a|] && s[i + 1] == b[i + 1 - |a|];
      } else {
        assert s[i] == a[|a| - 1] && s[i + 1] == b[0];
      }
    }
  }

  /** The neighbours are the consecutive pages `Lo..Hi`, all strictly between page 1 and the last page. */
  lemma NeighboursFacts(current: int, total: int)
    ensures Distinct(Neighbours(current, total))
    ensures Increasing(Neighbours(current, total))
    ensures NoSilentGap(Neighbours(current, total))
    ensures forall x :: x in Neighbours(current, total) ==> x.Num? && 1 < x.n < total
    ensures forall k :: Num(k) in Neighbours(current, total) <==> Lo(current) <= k <= Hi(current, total)
  {
    var mid := Neighbours(current, total);
    forall k ensures Num(k) in mid <==> Lo(current) <= k <= Hi(current, total) {
      if Lo(current) <= k <= Hi(current, total) {
        assert mid[k - Lo(current)] == Num(k);
      }
    }
  }

  /** The two ends of a strip: page 1 (and a marker), and (a marker and) the last page. */
  predicate Ends(lead: seq<PageItem>, trail: seq<PageItem>, total: int) {
    && (lead == [Num(1)] || lead == [Num(1), Dots])
    && (trail == [Num(total)] || trail == [Dots, Num(total)])
  }

  /** Page 1 comes before every neighbour. */
  lemma LeadBeforeNeighbours(current: int, total: int, lead: seq<PageItem>)
    requires lead == [Num(1)] || lead == [Num(1), Dots]
    ensures forall x, y :: x in lead && y in Neighbours(current, total) && x.Num? && y.Num? ==> x.n < y.n
  {
    NeighboursFacts(current, total);
  }

  /** Every page before the trailing end comes before the last page. */
  lemma BeforeTrail(current: int, total: int, pre: seq<PageItem>, trail: seq<PageItem>)
    requires forall x :: x in pre && x.Num? ==> x.n < total
    requires trail == [Num(total)] || trail == [Dots, Num(total)]
    ensures forall x, y :: x in pre && y in trail && x.Num? && y.Num? ==> x.n < y.n
  {
  }

  lemma EndsIncreasing(current: int, total: int, lead: seq<PageItem>, trail: seq<PageItem>)
    requires total >= 2 && Ends(lead, trail, total)
    ensures Increasing(lead + Neighbours(current, total) + trail)
  {
    var mid := Neighbours(current, total);
    NeighboursFacts(current, total);
    LeadBeforeNeighbours(current, total, lead);
    IncreasingConcat(lead, mid);
    forall x | x in lead + mid && x.Num? ensures x.n < total {
      assert x in lead || x in mid;
    }
    BeforeTrail(current, total, lead + mid, trail);
    IncreasingConcat(lead + mid, trail);
  }

  lemma EndsDistinct(current: int, total: int, lead: seq<PageItem>, trail: seq<PageItem>)
    requires total >= 2 && Ends(lead, trail, total)
    requires !(Dots in lead && Dots in trail)
    ensures Distinct(lead + Neighbours(current, total) + trail)
  {
    var mid := Neighbours(current, total);
    NeighboursFacts(current, total);
    assert forall x :: x in lead ==> x !in mid;
    DistinctConcat(lead, mid);
    assert forall x :: x in lead + mid ==> x !in trail;
    DistinctConcat(lead + mid, trail);
  }

  lemma EndsMembers(current: int, total: int, lead: seq<PageItem>, trail: seq<PageItem>)
    requires total >= 2 && Ends(lead, trail, total)
    ensures forall k :: Num(k) in lead + Neighbours(current, total) + trail
                    <==> k == 1 || k == total || Lo(current) <= k <= Hi(current, total)
  {
    NeighboursFacts(current, total);
  }

  /** Any strip built from page 1 (and a marker), the neighbours, and (a marker and) the last page has the layout. */
  lemma LayoutOf(current: int, total: int, lead: seq<PageItem>, trail: seq<PageItem>)
    requires total >= 2 && Ends(lead, trail, total)
    ensures Layout(lead + Neighbours(current, total) + trail, current, total)
  {
    EndsIncreasing(current, total, lead, trail);
    EndsMembers(current, total, lead, trail);
    var s := lead + Neighbours(current, total) + trail;
    assert s[0] == lead[0];
    assert s[|s| - 1] == trail[|trail| - 1];
    if 1 <= current <= total && current != 1 && current != total {
      assert Lo(current) <= current <= Hi(current, total);
    }
  }

  /** The intended strip hides no page silently. */
  lemma PageItemsNoSilentGap(current: int, total: int)
    requires total >= 2
    ensures NoSilentGap(PageItems(current, total))
  {
    var lead, mid, trail := Leading(current), Neighbours(current, total), Trailing(current, total);
    NeighboursFacts(current, total);
    if mid != [] {
      assert mid[0] == Num(Lo(current)) && mid[|mid| - 1] == Num(Hi(current, total));
    }
    NoSilentGapConcat(lead, mid);
    assert lead + mid != [] && (lead + mid)[|lead + mid| - 1] == if mid == [] then lead[|lead| - 1] else mid[|mid| - 1];
    NoSilentGapConcat(lead + mid, trail);
  }

  /** The intended strip of a bar with at least two pages has the layout and hides no page silently. */
  lemma PageItemsWellFormed(current: int, total: int)
    requires total >= 2
    ensures Layout(PageItems(current, total), current, total)
    ensures NoSilentGap(PageItems(current, total))
  {
    LayoutOf(current, total, Leading(current), Trailing(current, total));
    PageItemsNoSilentGap(current, total);
  }

  /** An entry already present adds nothing to the de-duplicated list. */
  lemma DedupSnocSeen(s: seq<PageItem>, x: PageItem)
    requires x in s
    ensures Dedup(s + [x]) == Dedup(s)
  {
    assert (s + [x])[..|s|] == s;
  }

  /** A new entry is kept, at the end. */
  lemma DedupSnocNew(s: seq<PageItem>, x: PageItem)
    requires x !in s
    ensures Dedup(s + [x]) == Dedup(s) + [x]
  {
    assert (s + [x])[..|s|] == s;
  }

  /** When both markers are due, the filter keeps the first and drops the second. */
  lemma AsWrittenDropsSecondMarker(current: int, total: int)
    requires current - Delta > 2 && current + Delta < total - 1
    ensures PageItemsAsWritten(current, total)
         == Leading(current) + Neighbours(current, total) + [Num(total)]
  {
    var pre := Leading(current) + Neighbours(current, total);
    NeighboursFacts(current, total);
    assert forall x :: x in Leading(current) ==> x !in Neighbours(current, total);
    DistinctConcat(Leading(current), Neighbours(current, total));
    DedupOfDistinct(pre);
    assert pre[1] == Dots;
    DedupSnocSeen(pre, Dots);
    assert Num(total) !in pre + [Dots];
    DedupSnocNew(pre + [Dots], Num(total));
    assert PageItems(current, total) == pre + [Dots] + [Num(total)];
  }

  /** The rendered strip of a bar with at least two pages still has the layout. */
  lemma AsWrittenLayout(current: int, total: int)
    requires total >= 2
    ensures Layout(PageItemsAsWritten(current, total), current, total)
  {
    if current - Delta > 2 && current + Delta < total - 1 {
      AsWrittenDropsSecondMarker(current, total);
      LayoutOf(current, total, Leading(current), [Num(total)]);
    } else {
      PageItemsWellFormed(current, total);
      EndsDistinct(current, total, Leading(current), Trailing(current, total));
      DedupOfDistinct(PageItems(current, total));
    }
  }

  /**
   * What the rendered strip shows: page 1 first, the last page last, page
   * numbers strictly increasing within `1..total`, no entry twice (so at most
   * one marker), the current page whenever it exists, and every other shown
   * page within two of the current one.
   */
  lemma RenderedStrip(current: int, total: int, i: int)
    requires total >= 2
    requires 0 <= i < |PageItemsAsWritten(current, total)|
    ensures var s := PageItemsAsWritten(current, total);
      && s[0] == Num(1)
      && s[|s| - 1] == Num(total)
      && Distinct(s)
      && (s[i].Num? ==> 1 <= s[i].n <= total)
      && (s[i].Num? && 1 < s[i].n < total ==> current - Delta <= s[i].n <= current + Delta)
      && (1 <= current <= total ==> Num(current) in s)
  {
    AsWrittenLayout(current, total);
    var s := PageItemsAsWritten(current, total);
    assert s[i] in s;
  }

  /** Page 10 of 20: pages 13 to 19 vanish without a marker between 12 and 20. */
  lemma AsWrittenHidesPages()
    ensures PageItemsAsWritten(10, 20) == [Num(1), Dots, Num(8), Num(9), Num(10), Num(11), Num(12), Num(20)]
    ensures !NoSilentGap(PageItemsAsWritten(10, 20))
  {
    AsWrittenDropsSecondMarker(10, 20);
    var r := PageItemsAsWritten(10, 20);
    assert Neighbours(10, 20) == [Num(8), Num(9), Num(10), Num(11), Num(12)];
    assert r[6] == Num(12) && r[7] == Num(20);
  }

  /** The de-duplication filter as a loop over the entries. */
  method KeepFirstOccurrences(s: seq<PageItem>) returns (r: seq<PageItem>)
    ensures r == Dedup(s)
    ensures forall x :: x in r <==> x in s
    ensures Distinct(r)
  {
    r := [];
    var k := 0;
    while k < |s|
      invariant 0 <= k <= |s|
      invariant r == Dedup(s[..k])
    {
      assert s[..k + 1][..k] == s[..k];
      if s[k] !in s[..k] {
        r := r + [s[k]];
      }
      k := k + 1;
    }
    assert s[..k] == s;
  }

  /**
   * `getPageNumbers`: collect the neighbours in a loop, add page 1, the
   * markers and the last page, then drop repeated entries.
   */
  method GetPageNumbers(current: int, total: int) returns (items: seq<PageItem>)
    ensures items == PageItemsAsWritten(current, total)
    ensures Distinct(items)
    ensures total >= 2 ==> Layout(items, current, total)
  {
    var range: seq<PageItem> := [];
    var i := if 2 > current - Delta then 2 else current - Delta;
    var last := if total - 1 < current + Delta then total - 1 else current + Delta;
    while i <= last
      invariant Lo(current) <= i <= if last + 1 > Lo(current) then last + 1 else Lo(current)
      invariant |range| == i - Lo(current)
      invariant forall j :: 0 <= j < |range| ==> range[j] == Num(Lo(current) + j)
      decreases last - i
    {
      range := range + [Num(i)];
      i := i + 1;
    }
    assert range == Neighbours(current, total);
    var lead: seq<PageItem>;
    if current - Delta > 2 {
      lead := [Num(1), Dots];
    } else {
      lead := [Num(1)];
    }
    var trail: seq<PageItem> := [];
    if current + Delta < total - 1 {
      trail := [Dots, Num(total)];
    } else if total > 1 {
      trail := [Num(total)];
    }
    var withDots := lead + range + trail;
    assert withDots == PageItems(current, total);
    items := KeepFirstOccurrences(withDots);
    if total >= 2 {
      AsWrittenLayout(current, total);
    }
  }

  /** First row number in the "showing" line. */
  function StartItem(current: int): (n: int)
    ensures (n - 1) % ItemsPerPage == 0
    ensures current >= 1 ==> n >= 1
  {
    (current - 1) * ItemsPerPage + 1
  }

  /** Last row number in the "showing" line: `Math.min(currentPage * 12, totalCount)`. */
  function EndItem(current: int, totalCount: int): (n: int)
    ensures n <= current * ItemsPerPage && n <= totalCount
    ensures n == current * ItemsPerPage || n == totalCount
  {
    if current * ItemsPerPage < totalCount then current * ItemsPerPage else totalCount
  }

  /** The "showing" line never spans more than one page of twelve rows. */
  lemma ShowingLineAtMostOnePage(current: int, totalCount: int)
    ensures EndItem(current, totalCount) - StartItem(current) + 1 <= ItemsPerPage
  {
  }

  /**
   * For a page that exists, the "showing a - b of n" line counts exactly the
   * rows that page of the list holds.
   */
  lemma ShowingLineCountsWindow(s: seq<Property>, current: int)
    requires 1 <= current <= TotalPages(|s|)
    ensures 1 <= StartItem(current) <= EndItem(current, |s|) <= |s|
    ensures EndItem(current, |s|) - StartItem(current) + 1 == |Window(s, current)|
  {
    var w := Window(s, current);
    var lo := (current - 1) * ItemsPerPage;
    var hi := EndItem(current, |s|);
    assert lo < |s|;
    assert w == s[lo..hi] by {
      assert |w| == hi - lo;
    }
  }

  /** `navigateToPage`: the URL parameters after following a link to page `p`. */
  function Navigate(params: Params, p: int): (r: Params)
    ensures forall key :: key != PageKey ==> (key in r <==> key in params)
    ensures forall key :: key != PageKey && key in r ==> r[key] == params[key]
  {
    if p == 1 then params - {PageKey} else params[PageKey := IntToString(p)]
  }

  /** Following a link to page `p` lands on page `p`: the listing reads back the number the link wrote. */
  lemma NavigateLandsOnPage(params: Params, p: int)
    ensures PageNumber(Navigate(params, p)) == Int(p)
  {
    var r := Navigate(params, p);
    if p == 1 {
      assert !ParamSet(r, PageKey);
      ParseIntOfIntToString(1);
      assert IntToString(1) == "1";
    } else {
      ParseIntOfIntToString(p);
      assert ParamSet(r, PageKey);
    }
  }

  /** Two parameter maps that agree on every key but the page number yield the same filters and order. */
  lemma SameViewParams(a: Params, b: Params)
    requires forall key :: key != PageKey ==> (key in a <==> key in b)
    requires forall key :: key != PageKey && key in a ==> a[key] == b[key]
    ensures ParamSet(a, SearchKey) <==> ParamSet(b, SearchKey)
    ensures FiltersFromParams(a) == FiltersFromParams(b)
    ensures SortParam(a) == SortParam(b)
  {
    assert ParamSet(a, TypeKey) <==> ParamSet(b, TypeKey);
    assert ParamSet(a, LocationKey) <==> ParamSet(b, LocationKey);
    assert NumericParam(a, MinPriceKey) == NumericParam(b, MinPriceKey);
    assert NumericParam(a, MaxPriceKey) == NumericParam(b, MaxPriceKey);
    assert NumericParam(a, BedroomsKey) == NumericParam(b, BedroomsKey);
    assert NumericParam(a, BathroomsKey) == NumericParam(b, BathroomsKey);
    assert NumericParam(a, MinAreaKey) == NumericParam(b, MinAreaKey);
    assert NumericParam(a, MaxAreaKey) == NumericParam(b, MaxAreaKey);
  }

  /** A page link keeps the mode, the filters and the sort order of the current view. */
  lemma NavigateKeepsView(params: Params, p: int)
    ensures ParamSet(Navigate(params, p), SearchKey) <==> ParamSet(params, SearchKey)
    ensures ParamSet(params, SearchKey) ==> Navigate(params, p)[SearchKey] == params[SearchKey]
    ensures FiltersFromParams(Navigate(params, p)) == FiltersFromParams(params)
    ensures SortParam(Navigate(params, p)) == SortParam(params)
  {
    SameViewParams(Navigate(params, p), params);
  }

  /** The previous button is enabled unless on page 1 or before it. */
  predicate PreviousEnabled(current: int) {
    current > 1
  }

  /** The next button is enabled unless on the last page or beyond it. */
  predicate NextEnabled(current: int, total: int) {
    current < total
  }

  /** An enabled previous or next button leads to a page that exists. */
  lemma StepButtonsStayInRange(current: int, total: int)
    requires 1 <= current <= total
    ensures PreviousEnabled(current) <==> 1 <= current - 1 <= total
    ensures NextEnabled(current, total) <==> 1 <= current + 1 <= total
    ensures !PreviousEnabled(current) <==> current == 1
    ensures !NextEnabled(current, total) <==> current == total
  {
  }
}
