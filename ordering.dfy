/**
 * The listing's sort orders. The storage service sorts; ties are left in an
 * unspecified order, so the model fixes one (a stable insertion sort) and
 * everything proved about it says only "sorted by the key" and "a
 * permutation of the input", which holds of any order the service picks.
 */
module Ordering {
  import opened Listing

  /** The `sort` URL parameter; anything unrecognised means `FeaturedFirst`. */
  datatype SortKey = PriceAsc | PriceDesc | AreaAsc | AreaDesc | Newest | Oldest | FeaturedFirst

  /** The `switch (sortBy)` of the listing query. */
  function ParseSort(s: string): (k: SortKey)
    ensures k == FeaturedFirst <==> s !in ["price_asc", "price_desc", "area_asc", "area_desc", "newest", "oldest"]
  {
    match s
    case "price_asc" => PriceAsc
    case "price_desc" => PriceDesc
    case "area_asc" => AreaAsc
    case "area_desc" => AreaDesc
    case "newest" => Newest
    case "oldest" => Oldest
    case _ => FeaturedFirst
  }

  /** `a` may come before `b` under key `k`. */
  predicate Precedes(k: SortKey, a: Property, b: Property) {
    match k
    case PriceAsc => a.price <= b.price
    case PriceDesc => a.price >= b.price
    case AreaAsc => a.area <= b.area
    case AreaDesc => a.area >= b.area
    case Newest => a.createdAt >= b.createdAt
    case Oldest => a.createdAt <= b.createdAt
    case FeaturedFirst =>
      (a.featured && !b.featured) || (a.featured == b.featured && a.createdAt >= b.createdAt)
  }

  /** Under every key any two rows are comparable. */
  lemma PrecedesTotal(k: SortKey, a: Property, b: Property)
    ensures Precedes(k, a, b) || Precedes(k, b, a)
  {
  }

  /** Under every key the order is transitive, so sorting by it is well defined. */
  lemma PrecedesTransitive(k: SortKey, a: Property, b: Property, c: Property)
    requires Precedes(k, a, b) && Precedes(k, b, c)
    ensures Precedes(k, a, c)
  {
  }

  predicate SortedBy(k: SortKey, s: seq<Property>) {
    forall i, j :: 0 <= i < j < |s| ==> Precedes(k, s[i], s[j])
  }

  /** A sorted list stays sorted when an element preceding all of it goes in front. */
  lemma ConsSorted(k: SortKey, h: Property, rest: seq<Property>)
    requires SortedBy(k, rest)
    requires forall y :: y in rest ==> Precedes(k, h, y)
    ensures SortedBy(k, [h] + rest)
  {
    var r := [h] + rest;
    forall i, j | 0 <= i < j < |r| ensures Precedes(k, r[i], r[j]) {
      assert r[j] == rest[j - 1];
      if i > 0 {
        assert r[i] == rest[i - 1];
      }
    }
  }

  /** Place `x` into a sorted list after every element that must precede it. */
  function Insert(k: SortKey, x: Property, s: seq<Property>): (r: seq<Property>)
    requires SortedBy(k, s)
    ensures SortedBy(k, r)
    ensures multiset(r) == multiset(s) + multiset{x}
  {
    if s == [] then [x]
    else if Precedes(k, x, s[0]) then
      InsertAtFront(k, x, s);
      [x] + s
    else
      var rest := Insert(k, x, s[1..]);
      InsertBehind(k, x, s, rest);
      [s[0]] + rest
  }

  lemma InsertAtFront(k: SortKey, x: Property, s: seq<Property>)
    requires SortedBy(k, s) && s != [] && Precedes(k, x, s[0])
    ensures SortedBy(k, [x] + s)
  {
    forall y | y in s ensures Precedes(k, x, y) {
      var j :| 0 <= j < |s| && s[j] == y;
      if j > 0 {
        PrecedesTransitive(k, x, s[0], s[j]);
      }
    }
    ConsSorted(k, x, s);
  }

  lemma InsertBehind(k: SortKey, x: Property, s: seq<Property>, rest: seq<Property>)
    requires SortedBy(k, s) && s != [] && !Precedes(k, x, s[0])
    requires SortedBy(k, rest) && multiset(rest) == multiset(s[1..]) + multiset{x}
    ensures SortedBy(k, [s[0]] + rest)
    ensures multiset([s[0]] + rest) == multiset(s) + multiset{x}
  {
    assert s == [s[0]] + s[1..];
    forall y | y in rest ensures Precedes(k, s[0], y) {
      assert y in multiset(rest);
      if y == x {
        PrecedesTotal(k, x, s[0]);
      } else {
        assert y in multiset(s[1..]);
        var j :| 0 <= j < |s[1..]| && s[1..][j] == y;
        assert s[j + 1] == y;
      }
    }
    ConsSorted(k, s[0], rest);
  }

  /** The rows reordered by key `k`. */
  function Sort(k: SortKey, s: seq<Property>): (r: seq<Property>)
    ensures SortedBy(k, r)
    ensures multiset(r) == multiset(s)
  {
    if s == [] then []
    else
      assert s == [s[0]] + s[1..];
      Insert(k, s[0], Sort(k, s[1..]))
  }

  /** Every contiguous slice of a sorted list is sorted. */
  lemma SliceSorted(k: SortKey, s: seq<Property>, lo: int, hi: int)
    requires SortedBy(k, s) && 0 <= lo <= hi <= |s|
    ensures SortedBy(k, s[lo..hi])
  {
    forall i, j | 0 <= i < j < hi - lo ensures Precedes(k, s[lo..hi][i], s[lo..hi][j]) {
      assert s[lo..hi][i] == s[lo + i] && s[lo..hi][j] == s[lo + j];
    }
  }

  /**
   * What each order promises of adjacent and distant rows alike: prices,
   * areas or creation times non-decreasing or non-increasing, and under the
   * default order every featured row before every other, each group newest first.
   */
  lemma SortedMeaning(k: SortKey, s: seq<Property>, i: int, j: int)
    requires SortedBy(k, s) && 0 <= i < j < |s|
    ensures k == PriceAsc ==> s[i].price <= s[j].price
    ensures k == PriceDesc ==> s[i].price >= s[j].price
    ensures k == AreaAsc ==> s[i].area <= s[j].area
    ensures k == AreaDesc ==> s[i].area >= s[j].area
    ensures k == Newest ==> s[i].createdAt >= s[j].createdAt
    ensures k == Oldest ==> s[i].createdAt <= s[j].createdAt
    ensures k == FeaturedFirst ==> (s[j].featured ==> s[i].featured)
    ensures k == FeaturedFirst && s[i].featured == s[j].featured ==> s[i].createdAt >= s[j].createdAt
  {
  }
}
