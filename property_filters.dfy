/**
 * The filter panel beside the listing: the choices it offers, the updates
 * each button makes to the filter object, the count of active filters, and
 * the URL parameters "apply" writes, which the listing page parses back.
 */
module FilterPanel {
  import opened Wrappers
  import opened JsText
  import opened Seqs
  import opened Listing
  import opened PropertiesPage

  /** The type buttons, by stored value. */
  const PropertyTypes: seq<string> := ["apartment", "villa", "studio", "penthouse", "duplex"]
  const BedroomOptions: seq<int> := [1, 2, 3, 4, 5, 6]
  const BathroomOptions: seq<int> := [1, 2, 3, 4, 5]

  /** A price or area button: its lower bound, and its upper bound unless open-ended. */
  datatype Range = Range(min: int, max: Option<int>)

  const PriceRanges: seq<Range> := [
    Range(0, Some(1000000)), Range(1000000, Some(2000000)), Range(2000000, Some(3000000)),
    Range(3000000, Some(5000000)), Range(5000000, Some(10000000)), Range(10000000, None)]

  const AreaRanges: seq<Range> := [
    Range(0, Some(100)), Range(100, Some(150)), Range(150, Some(200)),
    Range(200, Some(300)), Range(300, Some(500)), Range(500, None)]

  const Locations: seq<string> := [
    "شاطئ النخيل",
    "العجمي",
    "الإسكندرية",
    "سيدي عبد الرحمن",
    "الساحل الشمالي"]

  /**
   * Each table of ranges starts at 0, each range ends where the next
   * begins, and only the last is open: together they cover every value
   * from 0 upward with no overlap.
   */
  predicate Tiles(rs: seq<Range>) {
    && |rs| > 0
    && rs[0].min == 0
    && rs[|rs| - 1].max.None?
    && (forall i :: 0 <= i < |rs| - 1 ==> rs[i].max == Some(rs[i + 1].min) && rs[i].min < rs[i + 1].min)
  }

  lemma RangeTablesTile()
    ensures Tiles(PriceRanges) && Tiles(AreaRanges)
  {
  }

  /** The type button: deselect the type if selected, else make it the only selection. */
  function ToggleType(f: SearchFilters, t: string): (r: SearchFilters)
    ensures r == f.(propertyType := r.propertyType)
    ensures t in r.propertyType <==> t !in f.propertyType
    ensures t !in f.propertyType ==> r.propertyType == [t]
    ensures t in f.propertyType ==> forall u :: u in r.propertyType <==> u in f.propertyType && u != t
  {
    if t in f.propertyType then f.(propertyType := Filter(f.propertyType, u => u != t))
    else f.(propertyType := [t])
  }

  /** Starting from no selection, any sequence of type clicks leaves at most one type selected. */
  lemma {:induction false} ToggleTypeKeepsAtMostOne(f: SearchFilters, clicks: seq<string>)
    requires |f.propertyType| <= 1
    ensures |ToggleAll(f, clicks).propertyType| <= 1
    decreases |clicks|
  {
    if clicks != [] {
      var g := ToggleType(f, clicks[0]);
      assert |g.propertyType| <= 1;
      ToggleTypeKeepsAtMostOne(g, clicks[1..]);
    }
  }

  /** The filters after clicking the type buttons in order. */
  function ToggleAll(f: SearchFilters, clicks: seq<string>): SearchFilters
    decreases |clicks|
  {
    if clicks == [] then f else ToggleAll(ToggleType(f, clicks[0]), clicks[1..])
  }

  /** A bedroom button: clicking the selected count clears it, any other count selects it. */
  function ToggleBedrooms(f: SearchFilters, n: int): (r: SearchFilters)
    ensures r == f.(bedrooms := r.bedrooms)
    ensures r.bedrooms == if f.bedrooms == Some(Int(n)) then None else Some(Int(n))
  {
    f.(bedrooms := if f.bedrooms == Some(Int(n)) then None else Some(Int(n)))
  }

  /** A bathroom button, by the same rule. */
  function ToggleBathrooms(f: SearchFilters, n: int): (r: SearchFilters)
    ensures r == f.(bathrooms := r.bathrooms)
    ensures r.bathrooms == if f.bathrooms == Some(Int(n)) then None else Some(Int(n))
  {
    f.(bathrooms := if f.bathrooms == Some(Int(n)) then None else Some(Int(n)))
  }

  /** A location button, by the same rule. */
  function ToggleLocation(f: SearchFilters, loc: string): (r: SearchFilters)
    ensures r == f.(location := r.location)
    ensures r.location == if f.location == Some(loc) then None else Some(loc)
  {
    f.(location := if f.location == Some(loc) then None else Some(loc))
  }

  /**
   * Clicking one of the offered bedroom, bathroom or location buttons twice
   * restores the filter object when that field was unset or held that value,
   * and selecting a bedroom count makes it a lower bound on the rows.
   */
  lemma TogglesUndo(f: SearchFilters, n: int, loc: string, p: Property)
    ensures f.bedrooms == None || f.bedrooms == Some(Int(n)) ==> ToggleBedrooms(ToggleBedrooms(f, n), n) == f
    ensures f.bathrooms == None || f.bathrooms == Some(Int(n)) ==> ToggleBathrooms(ToggleBathrooms(f, n), n) == f
    ensures f.location == None || f.location == Some(loc) ==> ToggleLocation(ToggleLocation(f, loc), loc) == f
    ensures n in BedroomOptions && f.bedrooms != Some(Int(n)) ==>
      (SatisfiesFilters(ToggleBedrooms(f, n), p) <==> SatisfiesFilters(f.(bedrooms := None), p) && p.bedrooms >= n)
  {
  }

  /** A price button: set both bounds together, the upper one to `undefined` for the open range. */
  function SetPriceRange(f: SearchFilters, r: Range): (g: SearchFilters)
    ensures g == f.(minPrice := g.minPrice, maxPrice := g.maxPrice)
    ensures g.minPrice == Some(Int(r.min))
    ensures g.maxPrice.Some? <==> r.max.Some?
    ensures r.max.Some? ==> g.maxPrice == Some(Int(r.max.value))
  {
    f.(minPrice := Some(Int(r.min)), maxPrice := if r.max.Some? then Some(Int(r.max.value)) else None)
  }

  /** An area button, by the same rule. */
  function SetAreaRange(f: SearchFilters, r: Range): (g: SearchFilters)
    ensures g == f.(minArea := g.minArea, maxArea := g.maxArea)
    ensures g.minArea == Some(Int(r.min))
    ensures g.maxArea.Some? <==> r.max.Some?
    ensures r.max.Some? ==> g.maxArea == Some(Int(r.max.value))
  {
    f.(minArea := Some(Int(r.min)), maxArea := if r.max.Some? then Some(Int(r.max.value)) else None)
  }

  /**
   * After choosing a price button, a row passes the price checks exactly when
   * its price lies in the button's range; the lower bound 0 of the first
   * button is falsy and imposes nothing.
   */
  lemma PriceRangeSelects(f: SearchFilters, i: int, p: Property)
    requires 0 <= i < |PriceRanges|
    ensures var g := SetPriceRange(f, PriceRanges[i]);
      SatisfiesFilters(g, p) <==>
        && SatisfiesFilters(f.(minPrice := None, maxPrice := None), p)
        && (i > 0 ==> PriceRanges[i].min <= p.price)
        && (PriceRanges[i].max.Some? ==> p.price <= PriceRanges[i].max.value)
  {
  }

  /** The filter panel's state: the filter object and the raw text of the search box. */
  datatype Panel = Panel(filters: SearchFilters, searchTerm: string)

  /** `handleReset`: the empty filter object and an empty search box. */
  function Reset(): (p: Panel)
    ensures ActiveFiltersCount(p.filters, p.searchTerm) == 0
  {
    Panel(NoFilters, "")
  }

  /** After a reset, "apply" writes nothing, so the listing shows every available row. */
  lemma ResetWritesNothing(params: Params)
    ensures SerialisesTo(Reset().filters, Reset().searchTerm, params) <==> params == map[]
  {
    if SerialisesTo(Reset().filters, Reset().searchTerm, params) {
      NothingActiveWritesNothing(Reset().filters, Reset().searchTerm, params);
    }
    if params == map[] {
      assert Trim("") == "";
    }
  }

  function Flag(b: bool): nat {
    if b then 1 else 0
  }

  /**
   * `activeFiltersCount`: the filter fields that are set, not '' and not an
   * empty list, plus one for a non-empty search box. A numeric field counts
   * even when it holds 0 or NaN, which the query ignores.
   */
  function ActiveFiltersCount(f: SearchFilters, searchTerm: string): (n: nat)
    ensures n <= 9
    ensures n == 0 <==>
      && f.propertyType == []
      && f.minPrice.None? && f.maxPrice.None? && f.bedrooms.None? && f.bathrooms.None?
      && f.minArea.None? && f.maxArea.None?
      && !LocationActive(f)
      && searchTerm == ""
  {
    Flag(f.propertyType != []) + Flag(f.minPrice.Some?) + Flag(f.maxPrice.Some?)
      + Flag(f.bedrooms.Some?) + Flag(f.bathrooms.Some?) + Flag(f.minArea.Some?) + Flag(f.maxArea.Some?)
      + Flag(LocationActive(f)) + Flag(searchTerm != "")
  }

  /** No parameter outside the nine the panel writes: no page, no sort, no other name. */
  ghost predicate NoOtherKeys(params: Params) {
    PageKey !in params && SortParamKey !in params && forall n :: Other(n) !in params
  }

  /** A numeric filter is written, as its decimal form, exactly when it is truthy. */
  predicate NumberWritten(params: Params, key: ParamKey, x: Option<JsNumber>) {
    && (key in params <==> NumberText(x).Some?)
    && (key in params ==> params[key] == NumberText(x).value)
  }

  /**
   * What "apply" writes: the trimmed term when it is not blank, the first
   * selected type, each truthy numeric filter, a non-empty location, and
   * nothing else.
   */
  ghost predicate SerialisesTo(f: SearchFilters, searchTerm: string, params: Params) {
    && NoOtherKeys(params)
    && (SearchKey in params <==> Trim(searchTerm) != "")
    && (SearchKey in params ==> params[SearchKey] == Trim(searchTerm))
    && (TypeKey in params <==> f.propertyType != [])
    && (TypeKey in params ==> params[TypeKey] == f.propertyType[0])
    && NumberWritten(params, MinPriceKey, f.minPrice)
    && NumberWritten(params, MaxPriceKey, f.maxPrice)
    && NumberWritten(params, BedroomsKey, f.bedrooms)
    && NumberWritten(params, BathroomsKey, f.bathrooms)
    && NumberWritten(params, MinAreaKey, f.minArea)
    && NumberWritten(params, MaxAreaKey, f.maxArea)
    && (LocationKey in params <==> LocationActive(f))
    && (LocationKey in params ==> params[LocationKey] == f.location.value)
  }

  /** The search term and the type are written. */
  predicate HeadWritten(f: SearchFilters, searchTerm: string, params: Params) {
    && (SearchKey in params <==> Trim(searchTerm) != "")
    && (SearchKey in params ==> params[SearchKey] == Trim(searchTerm))
    && (TypeKey in params <==> f.propertyType != [])
    && (TypeKey in params ==> params[TypeKey] == f.propertyType[0])
  }

  /** The six numeric filters are written. */
  predicate NumbersWritten(f: SearchFilters, params: Params) {
    && NumberWritten(params, MinPriceKey, f.minPrice)
    && NumberWritten(params, MaxPriceKey, f.maxPrice)
    && NumberWritten(params, BedroomsKey, f.bedrooms)
    && NumberWritten(params, BathroomsKey, f.bathrooms)
    && NumberWritten(params, MinAreaKey, f.minArea)
    && NumberWritten(params, MaxAreaKey, f.maxArea)
  }

  const NumberKeys: set<ParamKey> := {MinPriceKey, MaxPriceKey, BedroomsKey, BathroomsKey, MinAreaKey, MaxAreaKey}

  /** The text `x.toString()` that `params.set(key, …)` writes for a truthy numeric filter. */
  function NumberText(x: Option<JsNumber>): (t: Option<string>)
    ensures t.Some? <==> Bound(x).Some?
    ensures t.Some? ==> t.value == IntToString(Bound(x).value)
  {
    if x.Some? && Truthy(x.value) then Some(IntToString(x.value.value)) else None
  }

  /** `if (x) params.set(key, x.toString())` for one numeric filter. */
  method SetNumber(params: Params, key: ParamKey, x: Option<JsNumber>) returns (params': Params)
    requires key !in params
    ensures NumberWritten(params', key, x)
    ensures forall k :: k != key ==> (k in params' <==> k in params)
    ensures forall k :: k != key && k in params ==> params'[k] == params[k]
  {
    params' := params;
    var t := NumberText(x);
    if t.Some? {
      params' := params'[key := t.value];
    }
  }

  /** The six numeric `if (x) params.set(key, x.toString())` calls of `handleSearch`, in order. */
  method SetNumbers(params: Params, f: SearchFilters) returns (params': Params)
    requires MinPriceKey !in params && MaxPriceKey !in params && BedroomsKey !in params
    requires BathroomsKey !in params && MinAreaKey !in params && MaxAreaKey !in params
    ensures NumbersWritten(f, params')
    ensures forall k :: k !in NumberKeys ==> (k in params' <==> k in params)
    ensures forall k :: k !in NumberKeys && k in params ==> params'[k] == params[k]
  {
    var p1 := SetNumber(params, MinPriceKey, f.minPrice);
    var p2 := SetNumber(p1, MaxPriceKey, f.maxPrice);
    var p3 := SetNumber(p2, BedroomsKey, f.bedrooms);
    var p4 := SetNumber(p3, BathroomsKey, f.bathrooms);
    var p5 := SetNumber(p4, MinAreaKey, f.minArea);
    params' := SetNumber(p5, MaxAreaKey, f.maxArea);
  }

  /** Writing the numbers leaves the term, the type and the absence of other keys as they were. */
  lemma NumbersKeepHead(f: SearchFilters, searchTerm: string, before: Params, after: Params)
    requires HeadWritten(f, searchTerm, before) && NoOtherKeys(before) && LocationKey !in before
    requires forall k :: k !in NumberKeys ==> (k in after <==> k in before)
    requires forall k :: k !in NumberKeys && k in before ==> after[k] == before[k]
    ensures HeadWritten(f, searchTerm, after) && NoOtherKeys(after) && LocationKey !in after
  {
    assert SearchKey !in NumberKeys && TypeKey !in NumberKeys && LocationKey !in NumberKeys;
    assert PageKey !in NumberKeys && SortParamKey !in NumberKeys;
    forall n ensures Other(n) !in after {
      assert Other(n) !in NumberKeys;
    }
  }

  /** The last step, the location, completes the parameter set. */
  lemma LocationCompletes(f: SearchFilters, searchTerm: string, before: Params, after: Params)
    requires HeadWritten(f, searchTerm, before) && NoOtherKeys(before) && LocationKey !in before
    requires NumbersWritten(f, before)
    requires after == if LocationActive(f) then before[LocationKey := f.location.value] else before
    ensures SerialisesTo(f, searchTerm, after)
  {
  }

  /** `handleSearch`: fill a fresh parameter set one `set` call at a time. */
  method HandleSearch(f: SearchFilters, searchTerm: string) returns (params: Params)
    ensures SerialisesTo(f, searchTerm, params)
  {
    params := map[];
    var term := Trim(searchTerm);
    if term != "" {
      params := params[SearchKey := term];
    }
    if |f.propertyType| > 0 {
      params := params[TypeKey := f.propertyType[0]];
    }
    assert HeadWritten(f, searchTerm, params) && NoOtherKeys(params) && LocationKey !in params;
    var withNumbers := SetNumbers(params, f);
    NumbersKeepHead(f, searchTerm, params, withNumbers);
    params := withNumbers;
    var before := params;
    if f.location.Some? && f.location.value != "" {
      params := params[LocationKey := f.location.value];
    }
    LocationCompletes(f, searchTerm, before, params);
  }

  /** A numeric filter written by "apply" is read back by the listing as the same bound. */
  lemma NumberReadBack(params: Params, key: ParamKey, x: Option<JsNumber>)
    requires NumberWritten(params, key, x)
    ensures Bound(NumericParam(params, key)) == Bound(x)
  {
    if key in params {
      ParseIntOfIntToString(Bound(x).value);
    }
  }

  /**
   * Round trip: when at most one (non-empty) type is selected, the filters the
   * listing parses from what "apply" wrote select exactly the rows the panel's
   * filters select, and search mode is entered exactly when the trimmed term
   * is not blank.
   */
  lemma ApplyRoundTrip(f: SearchFilters, searchTerm: string, params: Params, p: Property)
    requires SerialisesTo(f, searchTerm, params)
    requires |f.propertyType| <= 1 && forall t :: t in f.propertyType ==> t != ""
    ensures SatisfiesFilters(FiltersFromParams(params), p) <==> SatisfiesFilters(f, p)
    ensures ParamSet(params, SearchKey) <==> Trim(searchTerm) != ""
    ensures ParamSet(params, SearchKey) ==> params[SearchKey] == Trim(searchTerm)
  {
    var g := FiltersFromParams(params);
    NumberReadBack(params, MinPriceKey, f.minPrice);
    NumberReadBack(params, MaxPriceKey, f.maxPrice);
    NumberReadBack(params, BedroomsKey, f.bedrooms);
    NumberReadBack(params, BathroomsKey, f.bathrooms);
    NumberReadBack(params, MinAreaKey, f.minArea);
    NumberReadBack(params, MaxAreaKey, f.maxArea);
    if f.propertyType != [] {
      assert f.propertyType == [f.propertyType[0]];
      assert f.propertyType[0] in f.propertyType;
    }
  }

  /** With several types selected, only the first survives the trip through the URL. */
  lemma OnlyFirstTypeSurvives(f: SearchFilters, searchTerm: string, params: Params)
    requires SerialisesTo(f, searchTerm, params)
    requires f.propertyType != [] && f.propertyType[0] != ""
    ensures FiltersFromParams(params).propertyType == [f.propertyType[0]]
  {
  }

  /** A parameter set holding none of the eleven named keys and no other name is empty. */
  lemma NoKeysIsEmpty(params: Params)
    requires NoOtherKeys(params)
    requires SearchKey !in params && TypeKey !in params && LocationKey !in params
    requires forall k :: k in NumberKeys ==> k !in params
    ensures params == map[]
  {
    forall k ensures k !in params {
      match k
      case Other(n) =>
      case _ =>
    }
    assert params.Keys == {};
  }

  /** A panel with no active filter writes no parameter at all. */
  lemma NothingActiveWritesNothing(f: SearchFilters, searchTerm: string, params: Params)
    requires SerialisesTo(f, searchTerm, params)
    requires ActiveFiltersCount(f, searchTerm) == 0
    ensures params == map[]
  {
    assert Trim(searchTerm) == "";
    NoKeysIsEmpty(params);
  }
}
