/**
 * The listing's data: a row of the `properties` table, the user's search
 * constraints, and what it means for a row to satisfy them. The query
 * builder in `PropertiesPage` is proved to select exactly these rows.
 */
module Listing {
  import opened Wrappers
  import opened JsText

  /** A row of the `properties` table, restricted to the columns the site reads. */
  datatype Property = Property(
    id: string,
    title: string,
    titleAr: string,
    description: Option<string>,
    descriptionAr: Option<string>,
    location: string,
    locationAr: string,
    price: int,
    area: int,
    bedrooms: int,
    bathrooms: int,
    propertyType: string,
    status: string,
    images: seq<string>,
    featured: bool,
    createdAt: int)

  /** Only rows with this status are ever listed or searched. */
  predicate Available(p: Property) {
    p.status == "available"
  }

  /**
   * The user's search constraints. `None` stands for `undefined`; a numeric
   * field holds what `parseInt` produced, so it may be NaN. The type list is
   * empty both when it is `undefined` and when it is `[]`, which every
   * consumer treats alike.
   */
  datatype SearchFilters = SearchFilters(
    propertyType: seq<string>,
    minPrice: Option<JsNumber>,
    maxPrice: Option<JsNumber>,
    bedrooms: Option<JsNumber>,
    bathrooms: Option<JsNumber>,
    minArea: Option<JsNumber>,
    maxArea: Option<JsNumber>,
    location: Option<string>)

  /** The empty filter object `{}`. */
  const NoFilters := SearchFilters([], None, None, None, None, None, None, None)

  /**
   * The bound a numeric filter imposes: the handlers test each field for
   * truthiness, so `undefined`, NaN and 0 impose none.
   */
  function Bound(x: Option<JsNumber>): (b: Option<int>)
    ensures b.Some? <==> x.Some? && Truthy(x.value)
    ensures b.Some? ==> b.value == x.value.value && b.value != 0
  {
    if x.Some? && Truthy(x.value) then Some(x.value.value) else None
  }

  predicate AtLeast(bound: Option<int>, v: int) {
    bound.Some? ==> v >= bound.value
  }

  predicate AtMost(bound: Option<int>, v: int) {
    bound.Some? ==> v <= bound.value
  }

  /** The location filter is set to a non-empty string. */
  predicate LocationActive(f: SearchFilters) {
    f.location.Some? && f.location.value != ""
  }

  /** The term occurs, ignoring case, in the Latin or the Arabic location. */
  predicate LocationMatches(term: string, p: Property) {
    ILikeContains(p.location, term) || ILikeContains(p.locationAr, term)
  }

  /** The row satisfies every active filter; absent filters constrain nothing. */
  predicate SatisfiesFilters(f: SearchFilters, p: Property) {
    && (|f.propertyType| > 0 ==> p.propertyType in f.propertyType)
    && AtLeast(Bound(f.minPrice), p.price)
    && AtMost(Bound(f.maxPrice), p.price)
    && AtLeast(Bound(f.bedrooms), p.bedrooms)
    && AtLeast(Bound(f.bathrooms), p.bathrooms)
    && AtLeast(Bound(f.minArea), p.area)
    && AtMost(Bound(f.maxArea), p.area)
    && (LocationActive(f) ==> LocationMatches(f.location.value, p))
  }

  /** A nullable text column matches only when it holds a value. */
  predicate OptionalLike(field: Option<string>, term: string) {
    field.Some? && ILikeContains(field.value, term)
  }

  /** The free-text search: the term occurs, ignoring case, in any of six text columns. */
  predicate SearchMatches(term: string, p: Property) {
    || ILikeContains(p.title, term)
    || ILikeContains(p.titleAr, term)
    || OptionalLike(p.description, term)
    || OptionalLike(p.descriptionAr, term)
    || ILikeContains(p.location, term)
    || ILikeContains(p.locationAr, term)
  }

  /** With no filters set, every row satisfies them. */
  lemma NoFiltersAcceptAll(p: Property)
    ensures SatisfiesFilters(NoFilters, p)
  {
  }

  /**
   * A numeric filter holding 0 or NaN constrains nothing: the row satisfies
   * the filters exactly when it satisfies them with that field unset.
   */
  lemma FalsyBoundIsIgnored(f: SearchFilters, x: JsNumber, p: Property)
    requires !Truthy(x)
    ensures SatisfiesFilters(f.(minPrice := Some(x)), p) <==> SatisfiesFilters(f.(minPrice := None), p)
    ensures SatisfiesFilters(f.(maxPrice := Some(x)), p) <==> SatisfiesFilters(f.(maxPrice := None), p)
    ensures SatisfiesFilters(f.(bedrooms := Some(x)), p) <==> SatisfiesFilters(f.(bedrooms := None), p)
    ensures SatisfiesFilters(f.(bathrooms := Some(x)), p) <==> SatisfiesFilters(f.(bathrooms := None), p)
    ensures SatisfiesFilters(f.(minArea := Some(x)), p) <==> SatisfiesFilters(f.(minArea := None), p)
    ensures SatisfiesFilters(f.(maxArea := Some(x)), p) <==> SatisfiesFilters(f.(maxArea := None), p)
  {
  }

  /**
   * The filters are a conjunction: a row satisfies them exactly when it
   * satisfies each one set on its own, every other filter left unset.
   */
  lemma FiltersAreConjunctive(f: SearchFilters, p: Property)
    ensures SatisfiesFilters(f, p) <==>
      && SatisfiesFilters(NoFilters.(propertyType := f.propertyType), p)
      && SatisfiesFilters(NoFilters.(minPrice := f.minPrice), p)
      && SatisfiesFilters(NoFilters.(maxPrice := f.maxPrice), p)
      && SatisfiesFilters(NoFilters.(bedrooms := f.bedrooms), p)
      && SatisfiesFilters(NoFilters.(bathrooms := f.bathrooms), p)
      && SatisfiesFilters(NoFilters.(minArea := f.minArea), p)
      && SatisfiesFilters(NoFilters.(maxArea := f.maxArea), p)
      && SatisfiesFilters(NoFilters.(location := f.location), p)
  {
  }

  /** What each filter means on its own, as the query builder applies it. */
  lemma SingleFilterMeaning(ts: seq<string>, x: JsNumber, loc: string, p: Property)
    ensures SatisfiesFilters(NoFilters.(propertyType := ts), p) <==> ts == [] || p.propertyType in ts
    ensures SatisfiesFilters(NoFilters.(minPrice := Some(x)), p) <==> !Truthy(x) || p.price >= x.value
    ensures SatisfiesFilters(NoFilters.(maxPrice := Some(x)), p) <==> !Truthy(x) || p.price <= x.value
    ensures SatisfiesFilters(NoFilters.(bedrooms := Some(x)), p) <==> !Truthy(x) || p.bedrooms >= x.value
    ensures SatisfiesFilters(NoFilters.(bathrooms := Some(x)), p) <==> !Truthy(x) || p.bathrooms >= x.value
    ensures SatisfiesFilters(NoFilters.(minArea := Some(x)), p) <==> !Truthy(x) || p.area >= x.value
    ensures SatisfiesFilters(NoFilters.(maxArea := Some(x)), p) <==> !Truthy(x) || p.area <= x.value
    ensures SatisfiesFilters(NoFilters.(location := Some(loc)), p) <==>
      loc == "" || ILikeContains(p.location, loc) || ILikeContains(p.locationAr, loc)
  {
  }

  /** An empty search term matches every row, through its always-present title. */
  lemma EmptySearchMatchesAll(p: Property)
    ensures SearchMatches("", p)
  {
    EmptyTermMatchesEverything(p.title);
  }

  /** `ilike` ignores the case of ASCII letters in the term. */
  lemma SearchIgnoresCase(term: string, p: Property)
    ensures SearchMatches(term, p) <==> SearchMatches(ToLower(term), p)
    ensures LocationMatches(term, p) <==> LocationMatches(ToLower(term), p)
  {
    ToLowerIdempotent(term);
  }
}
