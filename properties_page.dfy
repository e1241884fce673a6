/**
 * The property listing page: the browse query (filters, sort, a window of
 * twelve rows, an exact count), the separate free-text search (six columns,
 * featured first, at most fifty rows), and the page logic that reads the URL
 * parameters, picks one of the two modes and computes the number of pages.
 * The storage service is modelled by `Execute` over a table held as a sequence.
 */
module PropertiesPage {
  import opened Wrappers
  import opened JsText
  import opened Seqs
  import opened Listing
  import opened Ordering

  const ItemsPerPage: int := 12
  const SearchLimit: int := 50

  datatype Column = Price | Area | Bedrooms | Bathrooms

  function ColumnValue(c: Column, p: Property): int {
    match c
    case Price => p.price
    case Area => p.area
    case Bedrooms => p.bedrooms
    case Bathrooms => p.bathrooms
  }

  /** One filter clause of a storage query (`eq`, `in`, `gte`, `lte`, and the `or` of two `ilike`s). */
  datatype Clause =
    | StatusIs(status: string)
    | TypeIn(types: seq<string>)
    | AtLeastClause(column: Column, bound: int)
    | AtMostClause(column: Column, bound: int)
    | LocationLike(term: string)

  predicate Holds(c: Clause, p: Property) {
    match c
    case StatusIs(s) => p.status == s
    case TypeIn(ts) => p.propertyType in ts
    case AtLeastClause(col, b) => ColumnValue(col, p) >= b
    case AtMostClause(col, b) => ColumnValue(col, p) <= b
    case LocationLike(t) => LocationMatches(t, p)
  }

  predicate HoldsAll(clauses: seq<Clause>, p: Property) {
    forall i :: 0 <= i < |clauses| ==> Holds(clauses[i], p)
  }

  /**
   * A storage query: its clauses, its order and the inclusive row range
   * `from..to`; `(page - 1) * 12` is NaN when the page number is.
   */
  datatype Query = Query(clauses: seq<Clause>, order: SortKey, from: JsNumber, to: JsNumber)

  lemma HoldsAllSnoc(clauses: seq<Clause>, c: Clause)
    ensures forall p :: HoldsAll(clauses + [c], p) <==> HoldsAll(clauses, p) && Holds(c, p)
  {
    forall p ensures HoldsAll(clauses + [c], p) <==> HoldsAll(clauses, p) && Holds(c, p) {
      if HoldsAll(clauses, p) && Holds(c, p) {
        forall i | 0 <= i < |clauses + [c]| ensures Holds((clauses + [c])[i], p) {
          if i < |clauses| {
            assert (clauses + [c])[i] == clauses[i];
          }
        }
      }
      if HoldsAll(clauses + [c], p) {
        forall i | 0 <= i < |clauses| ensures Holds(clauses[i], p) {
          assert (clauses + [c])[i] == clauses[i];
        }
        assert (clauses + [c])[|clauses|] == c;
      }
    }
  }

  /** The conjunction of the first `n` filter checks, in the order the query adds them. */
  predicate FirstChecks(f: SearchFilters, n: nat, p: Property) {
    && (n > 0 ==> (|f.propertyType| > 0 ==> p.propertyType in f.propertyType))
    && (n > 1 ==> AtLeast(Bound(f.minPrice), p.price))
    && (n > 2 ==> AtMost(Bound(f.maxPrice), p.price))
    && (n > 3 ==> AtLeast(Bound(f.bedrooms), p.bedrooms))
    && (n > 4 ==> AtLeast(Bound(f.bathrooms), p.bathrooms))
    && (n > 5 ==> AtLeast(Bound(f.minArea), p.area))
    && (n > 6 ==> AtMost(Bound(f.maxArea), p.area))
    && (n > 7 ==> (LocationActive(f) ==> LocationMatches(f.location.value, p)))
  }

  /** Add a `gte` clause when the bound is truthy. */
  method AddAtLeast(clauses: seq<Clause>, f: SearchFilters, n: nat, col: Column, x: Option<JsNumber>)
    returns (clauses': seq<Clause>)
    requires forall p :: HoldsAll(clauses, p) <==> Available(p) && FirstChecks(f, n, p)
    requires forall p :: FirstChecks(f, n + 1, p) <==> FirstChecks(f, n, p) && AtLeast(Bound(x), ColumnValue(col, p))
    ensures forall p :: HoldsAll(clauses', p) <==> Available(p) && FirstChecks(f, n + 1, p)
  {
    clauses' := clauses;
    var b := Bound(x);
    if b.Some? {
      HoldsAllSnoc(clauses, AtLeastClause(col, b.value));
      clauses' := clauses + [AtLeastClause(col, b.value)];
    }
  }

  /** Add an `lte` clause when the bound is truthy. */
  method AddAtMost(clauses: seq<Clause>, f: SearchFilters, n: nat, col: Column, x: Option<JsNumber>)
    returns (clauses': seq<Clause>)
    requires forall p :: HoldsAll(clauses, p) <==> Available(p) && FirstChecks(f, n, p)
    requires forall p :: FirstChecks(f, n + 1, p) <==> FirstChecks(f, n, p) && AtMost(Bound(x), ColumnValue(col, p))
    ensures forall p :: HoldsAll(clauses', p) <==> Available(p) && FirstChecks(f, n + 1, p)
  {
    clauses' := clauses;
    var b := Bound(x);
    if b.Some? {
      HoldsAllSnoc(clauses, AtMostClause(col, b.value));
      clauses' := clauses + [AtMostClause(col, b.value)];
    }
  }

  /**
   * The clauses of `getProperties`' query: start from "status is available"
   * and add one clause per truthy filter. The rows they admit are exactly
   * the available rows satisfying the filters.
   */
  method FilterClauses(f: SearchFilters) returns (clauses: seq<Clause>)
    ensures forall p :: HoldsAll(clauses, p) <==> Available(p) && SatisfiesFilters(f, p)
  {
    clauses := [StatusIs("available")];
    assert forall p :: HoldsAll(clauses, p) <==> Available(p) && FirstChecks(f, 0, p) by {
      forall p ensures HoldsAll(clauses, p) <==> Available(p) {
        assert clauses[0] == StatusIs("available");
      }
    }
    if |f.propertyType| > 0 {
      HoldsAllSnoc(clauses, TypeIn(f.propertyType));
      clauses := clauses + [TypeIn(f.propertyType)];
    }
    clauses := AddAtLeast(clauses, f, 1, Price, f.minPrice);
    clauses := AddAtMost(clauses, f, 2, Price, f.maxPrice);
    clauses := AddAtLeast(clauses, f, 3, Bedrooms, f.bedrooms);
    clauses := AddAtLeast(clauses, f, 4, Bathrooms, f.bathrooms);
    clauses := AddAtLeast(clauses, f, 5, Area, f.minArea);
    clauses := AddAtMost(clauses, f, 6, Area, f.maxArea);
    if LocationActive(f) {
      HoldsAllSnoc(clauses, LocationLike(f.location.value));
      clauses := clauses + [LocationLike(f.location.value)];
    }
  }

  /**
   * `getProperties`' query builder: the filter clauses, then the order and
   * the row range of the requested page.
   */
  method BuildQuery(f: SearchFilters, page: JsNumber, sortBy: string) returns (q: Query)
    ensures forall p :: HoldsAll(q.clauses, p) <==> Available(p) && SatisfiesFilters(f, p)
    ensures q.order == ParseSort(sortBy)
    ensures page.NaN? ==> q.from.NaN? && q.to.NaN?
    ensures page.Int? ==> q.from == Int((page.value - 1) * ItemsPerPage)
                          && q.to == Int((page.value - 1) * ItemsPerPage + ItemsPerPage - 1)
  {
    var clauses := FilterClauses(f);
    var order := ParseSort(sortBy);
    var from, to;
    match page {
      case NaN =>
        from, to := NaN, NaN;
      case Int(n) =>
        from := Int((n - 1) * ItemsPerPage);
        to := Int((n - 1) * ItemsPerPage + ItemsPerPage - 1);
    }
    q := Query(clauses, order, from, to);
  }

  /** `.range(from, to)`: the rows whose index lies in `from..to`, inclusive. */
  function RangeRows(s: seq<Property>, from: int, to: int): (r: seq<Property>)
    ensures |r| <= if to < from then 0 else to - from + 1
    ensures forall i :: 0 <= i < |r| ==>
      (if from < 0 then 0 else from) + i < |s| && r[i] == s[(if from < 0 then 0 else from) + i]
    ensures from >= 0 && to + 1 <= |s| && from <= to + 1 ==> |r| == to - from + 1
  {
    var lo := if from < 0 then 0 else if from > |s| then |s| else from;
    var hi := if to + 1 < lo then lo else if to + 1 > |s| then |s| else to + 1;
    s[lo..hi]
  }

  /** Sorting keeps the length and the elements. */
  lemma SortKeepsRows(k: SortKey, s: seq<Property>)
    ensures |Sort(k, s)| == |s|
    ensures forall p :: p in Sort(k, s) ==> p in s
  {
    var sorted := Sort(k, s);
    assert |multiset(sorted)| == |multiset(s)|;
    forall p | p in sorted ensures p in s {
      assert p in multiset(sorted);
    }
  }

  /** A range is never longer than the list it is cut from. */
  lemma RangeRowsShorter(s: seq<Property>, from: int, to: int)
    ensures |RangeRows(s, from, to)| <= |s|
  {
    var rows := RangeRows(s, from, to);
    if |rows| > 0 {
      var lo := if from < 0 then 0 else from;
      assert rows[|rows| - 1] == s[lo + |rows| - 1];
    }
  }

  /** A range of a list sorted by the service is sorted, no longer than the list, and holds only its elements. */
  lemma SortedRange(k: SortKey, s: seq<Property>, from: int, to: int)
    ensures var rows := RangeRows(Sort(k, s), from, to);
      && SortedBy(k, rows)
      && |rows| <= |s|
      && forall p :: p in rows ==> p in s
  {
    SortKeepsRows(k, s);
    RangeRowsOfSorted(k, Sort(k, s), from, to);
    RangeRowsShorter(Sort(k, s), from, to);
  }

  /** A range of a sorted list is sorted and holds only elements of the list. */
  lemma RangeRowsOfSorted(k: SortKey, s: seq<Property>, from: int, to: int)
    requires SortedBy(k, s)
    ensures SortedBy(k, RangeRows(s, from, to))
    ensures forall p :: p in RangeRows(s, from, to) ==> p in s
  {
    var r := RangeRows(s, from, to);
    var lo := if from < 0 then 0 else from;
    forall i, j | 0 <= i < j < |r| ensures Precedes(k, r[i], r[j]) {
      assert r[i] == s[lo + i] && r[j] == s[lo + j];
    }
  }

  /** The result of a query as the storage service reports it: rows and exact count, or an error. */
  datatype QueryResult = Rows(rows: seq<Property>, count: nat) | QueryError

  /** The rows of the table every clause admits, in table order. */
  function Admitted(table: seq<Property>, clauses: seq<Clause>): (r: seq<Property>)
    ensures |r| <= |table|
    ensures forall p :: p in r <==> p in table && HoldsAll(clauses, p)
  {
    Filter(table, p => HoldsAll(clauses, p))
  }

  /**
   * A range the storage service accepts once it knows the exact count: the
   * offset is a number, not negative, and not past the count. An offset
   * equal to the count is accepted and yields no rows; a larger one is
   * answered with a "range not satisfiable" error, and so is a negative one.
   */
  predicate RangeAccepted(q: Query, count: nat) {
    q.from.Int? && q.to.Int? && 0 <= q.from.value <= count
  }

  /**
   * The storage service running a query with an exact count: keep the rows
   * every clause admits, sort them, and return the requested range and the
   * count of all admitted rows, or an error when the range is not accepted.
   */
  function Execute(table: seq<Property>, q: Query): (r: QueryResult)
    ensures r.QueryError? <==> !RangeAccepted(q, |Admitted(table, q.clauses)|)
    ensures r.Rows? ==> r.count == |Admitted(table, q.clauses)| && r.count <= |table| && |r.rows| <= r.count
    ensures r.Rows? ==> SortedBy(q.order, r.rows)
    ensures r.Rows? ==> forall p :: p in r.rows ==> p in table && HoldsAll(q.clauses, p)
  {
    var admitted := Admitted(table, q.clauses);
    if !RangeAccepted(q, |admitted|) then QueryError
    else
      var rows := RangeRows(Sort(q.order, admitted), q.from.value, q.to.value);
      SortedRange(q.order, admitted, q.from.value, q.to.value);
      Rows(rows, |admitted|)
  }

  /** The available rows satisfying the filters, in table order. */
  function Matching(table: seq<Property>, f: SearchFilters): (r: seq<Property>)
    ensures forall p :: p in r <==> p in table && Available(p) && SatisfiesFilters(f, p)
  {
    Filter(table, p => Available(p) && SatisfiesFilters(f, p))
  }

  /** Page `page` of a list: the rows at indices `(page-1)*12 .. page*12-1` that exist. */
  function Window(s: seq<Property>, page: int): (r: seq<Property>)
    ensures |r| <= ItemsPerPage
    ensures forall i :: 0 <= i < |r| ==>
      0 <= (page - 1) * ItemsPerPage + i < |s| && r[i] == s[(page - 1) * ItemsPerPage + i]
  {
    if page < 1 then []
    else RangeRows(s, (page - 1) * ItemsPerPage, (page - 1) * ItemsPerPage + ItemsPerPage - 1)
  }

  /** Every element of a window is an element of the list it is cut from. */
  lemma WindowElements(s: seq<Property>, page: int)
    ensures forall p :: p in Window(s, page) ==> p in s
  {
    var r := Window(s, page);
    forall p | p in r ensures p in s {
      var i :| 0 <= i < |r| && r[i] == p;
      assert s[(page - 1) * ItemsPerPage + i] == p;
    }
  }

  /** A window of a sorted list is sorted. */
  lemma WindowSorted(k: SortKey, s: seq<Property>, page: int)
    requires SortedBy(k, s)
    ensures SortedBy(k, Window(s, page))
  {
    var r := Window(s, page);
    forall i, j | 0 <= i < j < |r| ensures Precedes(k, r[i], r[j]) {
      assert r[i] == s[(page - 1) * ItemsPerPage + i];
      assert r[j] == s[(page - 1) * ItemsPerPage + j];
    }
  }

  /** Two different pages of a list without repeated rows share no row. */
  lemma PagesDisjoint(s: seq<Property>, page: int, page': int)
    requires forall i, j :: 0 <= i < j < |s| ==> s[i] != s[j]
    requires page != page'
    ensures forall p :: p in Window(s, page) ==> p !in Window(s, page')
  {
    var w, w' := Window(s, page), Window(s, page');
    forall i, j | 0 <= i < |w| && 0 <= j < |w'| ensures w[i] != w'[j] {
      var a, b := (page - 1) * ItemsPerPage + i, (page' - 1) * ItemsPerPage + j;
      if a < b {
        assert s[a] != s[b];
      } else {
        assert s[b] != s[a];
      }
    }
  }

  /** Browse mode's rows for one page, as the query is meant to select them. */
  function Browse(table: seq<Property>, f: SearchFilters, page: int, sortBy: string): (r: seq<Property>)
    ensures |r| <= ItemsPerPage
    ensures forall p :: p in r ==> p in table && Available(p) && SatisfiesFilters(f, p)
    ensures SortedBy(ParseSort(sortBy), r)
  {
    var sorted := Sort(ParseSort(sortBy), Matching(table, f));
    WindowElements(sorted, page);
    WindowSorted(ParseSort(sortBy), sorted, page);
    assert forall p :: p in sorted ==> p in multiset(Matching(table, f));
    Window(sorted, page)
  }

  /**
   * A page number whose offset `(page-1)*12` the service accepts: page 1 or
   * later, starting no further than just past the last matching row.
   */
  predicate PageAccepted(table: seq<Property>, f: SearchFilters, page: int) {
    1 <= page && (page - 1) * ItemsPerPage <= |Matching(table, f)|
  }

  /** Every page the page count offers is one the service accepts. */
  lemma ExistingPagesAccepted(table: seq<Property>, f: SearchFilters, page: int)
    requires 1 <= page <= TotalPages(|Matching(table, f)|)
    ensures PageAccepted(table, f, page)
  {
    var n := TotalPages(|Matching(table, f)|);
    assert (page - 1) * ItemsPerPage <= (n - 1) * ItemsPerPage;
  }

  /** A page more than one past the last is rejected, and so is every page before the first. */
  lemma FarPagesRejected(table: seq<Property>, f: SearchFilters, page: int)
    requires page < 1 || page > TotalPages(|Matching(table, f)|) + 1
    ensures !PageAccepted(table, f, page)
  {
    var n := TotalPages(|Matching(table, f)|);
    if page >= 1 {
      assert (page - 1) * ItemsPerPage >= (n + 1) * ItemsPerPage;
    }
  }

  /** `getProperties`' result: rows of the page and the count of all matching rows. */
  datatype BrowseResult = BrowseResult(properties: seq<Property>, count: nat)

  /**
   * `getProperties`: build the query, run it, and on a storage error report
   * no rows and a count of zero. A NaN page and a page whose range the
   * service refuses come back as errors too.
   */
  method GetProperties(table: seq<Property>, storageFails: bool, f: SearchFilters, page: JsNumber, sortBy: string)
    returns (result: BrowseResult)
    ensures storageFails || page.NaN? || !PageAccepted(table, f, page.value) ==> result == BrowseResult([], 0)
    ensures !storageFails && page.Int? && PageAccepted(table, f, page.value) ==>
      result == BrowseResult(Browse(table, f, page.value, sortBy), |Matching(table, f)|)
  {
    var q := BuildQuery(f, page, sortBy);
    FilterAgree(table, p => HoldsAll(q.clauses, p), p => Available(p) && SatisfiesFilters(f, p));
    assert Admitted(table, q.clauses) == Matching(table, f);
    var outcome := if storageFails then QueryError else Execute(table, q);
    match outcome {
      case QueryError =>
        result := BrowseResult([], 0);
      case Rows(rows, count) =>
        result := BrowseResult(rows, count);
    }
  }

  /** The first `n` rows (`.limit(n)`). */
  function Take(s: seq<Property>, n: nat): (r: seq<Property>)
    ensures |r| <= n && |r| <= |s| && r == s[..|r|]
    ensures |s| <= n ==> r == s
  {
    if |s| <= n then s else s[..n]
  }

  /** The available rows the free-text term matches, in table order. */
  function SearchHits(table: seq<Property>, term: string): (r: seq<Property>)
    ensures forall p :: p in r <==> p in table && Available(p) && SearchMatches(term, p)
  {
    Filter(table, p => Available(p) && SearchMatches(term, p))
  }

  /**
   * `searchProperties`: available rows matching the term in any of the six
   * text columns, featured first then newest first, at most fifty; a
   * storage error gives the empty list.
   */
  function SearchProperties(table: seq<Property>, term: string, storageFails: bool): (r: seq<Property>)
    ensures |r| <= SearchLimit
    ensures forall p :: p in r ==> p in table && Available(p) && SearchMatches(term, p)
    ensures SortedBy(FeaturedFirst, r)
    ensures storageFails ==> r == []
    ensures !storageFails && |SearchHits(table, term)| <= SearchLimit ==>
      multiset(r) == multiset(SearchHits(table, term))
  {
    if storageFails then []
    else
      var sorted := Sort(FeaturedFirst, SearchHits(table, term));
      var r := Take(sorted, SearchLimit);
      SliceSorted(FeaturedFirst, sorted, 0, |r|);
      forall p | p in r ensures p in table && Available(p) && SearchMatches(term, p) {
        assert p in sorted;
        assert p in multiset(SearchHits(table, term));
      }
      r
  }

  /** `Math.ceil(totalCount / 12)` */
  function TotalPages(totalCount: nat): (n: nat)
    ensures (n - 1) * ItemsPerPage < totalCount <= n * ItemsPerPage || (totalCount == 0 && n == 0)
  {
    (totalCount + ItemsPerPage - 1) / ItemsPerPage
  }

  /** Pages `1..n` of a list, concatenated. */
  function PagesUpTo(s: seq<Property>, n: nat): seq<Property> {
    if n == 0 then [] else PagesUpTo(s, n - 1) + Window(s, n)
  }

  /** Where page `n` of a list of length `len` ends: after row `n*12`, or at the end of the list. */
  function PagesEnd(n: nat, len: nat): (e: nat)
    ensures e <= len
    ensures e == len || e == n * ItemsPerPage
  {
    if n * ItemsPerPage < len then n * ItemsPerPage else len
  }

  /** Page `n` is the slice of the list between the ends of pages `n-1` and `n`. */
  lemma WindowIsSlice(s: seq<Property>, n: nat)
    requires n > 0
    ensures PagesEnd(n - 1, |s|) <= PagesEnd(n, |s|)
    ensures Window(s, n) == s[PagesEnd(n - 1, |s|)..PagesEnd(n, |s|)]
  {
    var lo, hi := PagesEnd(n - 1, |s|), PagesEnd(n, |s|);
    var w := Window(s, n);
    assert |w| == hi - lo;
    forall i | 0 <= i < |w| ensures w[i] == s[lo..hi][i] {
      assert w[i] == s[lo + i];
    }
  }

  /** A prefix followed by the next slice is the longer prefix. */
  lemma PrefixThenSlice(s: seq<Property>, lo: nat, hi: nat)
    requires lo <= hi <= |s|
    ensures s[..lo] + s[lo..hi] == s[..hi]
  {
  }

  lemma {:induction false} PagesUpToIsPrefix(s: seq<Property>, n: nat)
    ensures PagesUpTo(s, n) == s[..PagesEnd(n, |s|)]
  {
    if n > 0 {
      PagesUpToIsPrefix(s, n - 1);
      var lo, hi := PagesEnd(n - 1, |s|), PagesEnd(n, |s|);
      WindowIsSlice(s, n);
      PrefixThenSlice(s, lo, hi);
    }
  }

  /**
   * Reading every page from 1 to the page count, in order, yields the whole
   * list exactly once: no row is repeated, skipped or reordered.
   */
  lemma AllPagesYieldTheList(s: seq<Property>)
    ensures PagesUpTo(s, TotalPages(|s|)) == s
  {
    PagesUpToIsPrefix(s, TotalPages(|s|));
    assert PagesEnd(TotalPages(|s|), |s|) == |s|;
  }

  /**
   * The names of the URL parameters the site reads or writes; any other
   * name is kept as written.
   */
  datatype ParamKey =
    | SearchKey | PageKey | SortParamKey | TypeKey | MinPriceKey | MaxPriceKey | BedroomsKey | BathroomsKey
    | MinAreaKey | MaxAreaKey | LocationKey | Other(name: string)

  /** The URL parameters of the page: each key present maps to its value. */
  type Params = map<ParamKey, string>

  /** A parameter that is present and non-empty, as `params.x ? … : …` tests it. */
  predicate ParamSet(params: Params, key: ParamKey) {
    key in params && params[key] != ""
  }

  function NumericParam(params: Params, key: ParamKey): (x: Option<JsNumber>)
    ensures x.Some? <==> ParamSet(params, key)
  {
    if ParamSet(params, key) then Some(ParseInt(params[key])) else None
  }

  /** The filter object the page builds from its URL parameters. */
  function FiltersFromParams(params: Params): (f: SearchFilters)
    ensures |f.propertyType| <= 1 && forall t :: t in f.propertyType ==> t != ""
    ensures |f.propertyType| == 1 <==> ParamSet(params, TypeKey)
    ensures f.location.Some? <==> ParamSet(params, LocationKey)
    ensures f.location.Some? ==> f.location.value == params[LocationKey]
    ensures (f.minPrice.Some? <==> ParamSet(params, MinPriceKey)) && (f.maxPrice.Some? <==> ParamSet(params, MaxPriceKey))
    ensures (f.bedrooms.Some? <==> ParamSet(params, BedroomsKey)) && (f.bathrooms.Some? <==> ParamSet(params, BathroomsKey))
    ensures (f.minArea.Some? <==> ParamSet(params, MinAreaKey)) && (f.maxArea.Some? <==> ParamSet(params, MaxAreaKey))
  {
    SearchFilters(
      if ParamSet(params, TypeKey) then [params[TypeKey]] else [],
      NumericParam(params, MinPriceKey),
      NumericParam(params, MaxPriceKey),
      NumericParam(params, BedroomsKey),
      NumericParam(params, BathroomsKey),
      NumericParam(params, MinAreaKey),
      NumericParam(params, MaxAreaKey),
      if ParamSet(params, LocationKey) then Some(params[LocationKey]) else None)
  }

  /** `parseInt(params.page || '1')` */
  function PageNumber(params: Params): (n: JsNumber)
    ensures !ParamSet(params, PageKey) ==> n == Int(1)
    ensures ParamSet(params, PageKey) ==> n == ParseInt(params[PageKey])
  {
    if ParamSet(params, PageKey) then ParseInt(params[PageKey])
    else
      ParseIntOfIntToString(1);
      assert IntToString(1) == "1";
      ParseInt("1")
  }

  /** `params.sort || 'featured'` */
  function SortParam(params: Params): (sort: string)
    ensures sort != ""
    ensures ParamSet(params, SortParamKey) ==> sort == params[SortParamKey]
    ensures ParseSort(sort) == FeaturedFirst <==> sort !in ["price_asc", "price_desc", "area_asc", "area_desc", "newest", "oldest"]
  {
    if ParamSet(params, SortParamKey) then params[SortParamKey] else "featured"
  }

  /** What the page renders from: the rows, the total shown and the page count. */
  datatype PageView = PageView(properties: seq<Property>, totalCount: nat, totalPages: nat)

  /**
   * The page: a non-empty `search` parameter selects search mode, whose total
   * is the number of rows returned; otherwise browse mode with the filters,
   * page and sort read from the URL.
   */
  method LoadPage(params: Params, table: seq<Property>, storageFails: bool) returns (view: PageView)
    ensures ParamSet(params, SearchKey) ==>
      && view.properties == SearchProperties(table, params[SearchKey], storageFails)
      && view.totalCount == |view.properties|
    ensures !ParamSet(params, SearchKey) && !storageFails && PageNumber(params).Int?
            && PageAccepted(table, FiltersFromParams(params), PageNumber(params).value) ==>
      && view.properties == Browse(table, FiltersFromParams(params), PageNumber(params).value, SortParam(params))
      && view.totalCount == |Matching(table, FiltersFromParams(params))|
    ensures !ParamSet(params, SearchKey)
            && (storageFails || PageNumber(params).NaN?
                || !PageAccepted(table, FiltersFromParams(params), PageNumber(params).value)) ==>
      view.properties == [] && view.totalCount == 0 && view.totalPages == 0
    ensures view.totalPages == TotalPages(view.totalCount)
    ensures forall p :: p in view.properties ==> p in table && Available(p)
  {
    var properties: seq<Property> := [];
    var totalCount: nat := 0;
    if ParamSet(params, SearchKey) {
      properties := SearchProperties(table, params[SearchKey], storageFails);
      totalCount := |properties|;
    } else {
      var result := GetProperties(table, storageFails, FiltersFromParams(params), PageNumber(params), SortParam(params));
      properties := result.properties;
      totalCount := result.count;
    }
    view := PageView(properties, totalCount, TotalPages(totalCount));
  }
}
