/**
 * The pure decisions of the shop page (`ShopClient`): the `clamp`,
 * `toggleInArray` and `filtersEqual` helpers, the price bounds of the
 * catalog, the default filters and the applied-filter count, reading the
 * page state from the URL ("the URL wins when it names any shop key"),
 * keeping saved filters inside the bounds, the price inputs and the check
 * that skips rewriting an unchanged URL.
 */
module ShopBrowsing {
  import opened Wrappers
  import opened JsStrings
  import opened JsNumber
  import opened Sequences
  import opened Catalog
  import opened ShopTypes
  import opened ShopUrlState

  // ---------------------------------------------------------------------------
  // Helpers
  // ---------------------------------------------------------------------------

  /** `Math.max(min, Math.min(max, n))`. */
  function Clamp(n: Num, min: Num, max: Num): (r: Num)
    ensures min <= max ==> min <= r <= max
    ensures min <= n <= max ==> r == n
    ensures n < min ==> r == min
    ensures min <= max < n ==> r == max
    ensures max < min ==> r == min
  {
    var upper := if max < n then max else n;
    if min > upper then min else upper
  }

  /** The predicate `x => x !== value`. */
  function Other<T(==)>(value: T): T -> bool {
    x => x != value
  }

  /**
   * `toggleInArray`: drops every copy of a present value and keeps the other
   * elements, as often as they occur and in their order; appends an absent one.
   */
  function ToggleInArray<T(==,!new)>(arr: seq<T>, value: T): (r: seq<T>)
    ensures value in arr ==> value !in r && forall x :: x in r <==> x in arr && x != value
    ensures value in arr ==> multiset(r) == multiset(arr)[value := 0] && IsSubsequence(r, arr)
    ensures value !in arr ==> r == arr + [value]
  {
    if value in arr then
      FilterMembership(arr, Other(value));
      DropAll(arr, value);
      Filter(arr, Other(value))
    else arr + [value]
  }

  /** Filtering out `value` removes all its copies and keeps the rest in order. */
  lemma DropAll<T>(arr: seq<T>, value: T)
    ensures multiset(Filter(arr, Other(value))) == multiset(arr)[value := 0]
    ensures IsSubsequence(Filter(arr, Other(value)), arr)
  {
    forall x ensures multiset(Filter(arr, Other(value)))[x] == multiset(arr)[value := 0][x] {
      FilterCount(arr, Other(value), x);
    }
    FilterIsSubsequence(arr, Other(value));
  }

  /** Toggling an absent value twice gives back the list. */
  lemma ToggleTwice<T(!new)>(arr: seq<T>, value: T)
    requires value !in arr
    ensures ToggleInArray(ToggleInArray(arr, value), value) == arr
  {
    var once := arr + [value];
    assert value in once;
    FilterAppend(arr, [value], Other(value));
    FilterAll(arr, Other(value));
    assert Filter([value], Other(value)) == [];
  }

  /** Toggling keeps a list free of repeated elements. */
  lemma ToggleKeepsDistinct<T(!new)>(arr: seq<T>, value: T)
    requires Distinct(arr)
    ensures Distinct(ToggleInArray(arr, value))
  {
    if value in arr {
      FilterKeepsDistinct(arr, Other(value));
    }
  }

  lemma {:induction false} FilterKeepsDistinct<T>(s: seq<T>, f: T -> bool)
    requires Distinct(s)
    ensures Distinct(Filter(s, f))
  {
    if s != [] {
      FilterKeepsDistinct(s[1..], f);
      var rest := Filter(s[1..], f);
      FilterIn(s[1..], f, s[0]);
      assert s[0] !in s[1..];
      var r := Filter(s, f);
      assert r == (if f(s[0]) then [s[0]] else []) + rest;
      if f(s[0]) {
        forall i, j | 0 <= i < j < |r| ensures r[i] != r[j] {
          if i == 0 {
            assert r[j] == rest[j - 1];
          } else {
            assert r[i] == rest[i - 1] && r[j] == rest[j - 1];
          }
        }
      }
    }
  }

  /** `filtersEqual`: the same switches and range, equal lengths, and `a`'s selections all in `b`. */
  predicate FiltersEqual(a: FiltersState, b: FiltersState) {
    a.vetApprovedOnly == b.vetApprovedOnly
    && a.minRating == b.minRating
    && a.price.0 == b.price.0
    && a.price.1 == b.price.1
    && |a.categories| == |b.categories|
    && |a.types| == |b.types|
    && (forall x :: x in a.categories ==> x in b.categories)
    && (forall x :: x in a.types ==> x in b.types)
  }

  /** Selections without repeated entries. */
  predicate DistinctSelections(f: FiltersState) {
    Distinct(f.categories) && Distinct(f.types)
  }

  /**
   * Without repeated selections, `filtersEqual` is equality of the switches
   * and range and of the selected sets, whatever the selection order.
   */
  lemma FiltersEqualMeaning(a: FiltersState, b: FiltersState)
    requires DistinctSelections(a) && DistinctSelections(b)
    ensures FiltersEqual(a, b) <==>
      a.vetApprovedOnly == b.vetApprovedOnly && a.minRating == b.minRating && a.price == b.price
      && Elements(a.categories) == Elements(b.categories) && Elements(a.types) == Elements(b.types)
  {
    SameElements(a.categories, b.categories);
    SameElements(a.types, b.types);
  }

  /** `filtersEqual` is reflexive, repeated selections included. */
  lemma FiltersEqualReflexive(a: FiltersState)
    ensures FiltersEqual(a, a)
  {
  }

  /** `filtersEqual` is symmetric without repeated selections. */
  lemma FiltersEqualSymmetric(a: FiltersState, b: FiltersState)
    requires DistinctSelections(a) && DistinctSelections(b)
    ensures FiltersEqual(a, b) <==> FiltersEqual(b, a)
  {
    FiltersEqualMeaning(a, b);
    FiltersEqualMeaning(b, a);
  }

  /** With a repeated selection `filtersEqual` is not symmetric: `[cat, cat]` against `[cat, dog]`. */
  lemma FiltersEqualRepeatedSelection(a: FiltersState, b: FiltersState)
    requires a.categories == [Cat, Cat] && b == a.(categories := [Cat, Dog])
    ensures FiltersEqual(a, b) && !FiltersEqual(b, a)
  {
    assert Dog in b.categories && Dog !in a.categories;
  }

  // ---------------------------------------------------------------------------
  // Bounds and defaults
  // ---------------------------------------------------------------------------

  /** `Math.min(...prices)`. */
  function MinPrice(products: seq<Product>): (r: Num)
    requires |products| > 0
    ensures exists i :: 0 <= i < |products| && products[i].price == r
    ensures forall i :: 0 <= i < |products| ==> r <= products[i].price
  {
    if |products| == 1 then products[0].price
    else
      var rest := MinPrice(products[1..]);
      assert forall i :: 1 <= i < |products| ==> products[i] == products[1..][i - 1];
      if products[0].price <= rest then products[0].price else rest
  }

  /** `Math.max(...prices)`. */
  function MaxPrice(products: seq<Product>): (r: Num)
    requires |products| > 0
    ensures exists i :: 0 <= i < |products| && products[i].price == r
    ensures forall i :: 0 <= i < |products| ==> products[i].price <= r
  {
    if |products| == 1 then products[0].price
    else
      var rest := MaxPrice(products[1..]);
      assert forall i :: 1 <= i < |products| ==> products[i] == products[1..][i - 1];
      if products[0].price >= rest then products[0].price else rest
  }

  /** The price bounds: the lowest price rounded down and the highest rounded up to whole units. */
  function Bounds(products: seq<Product>): (r: (Num, Num))
    requires |products| > 0
    ensures r.0 % 100 == 0 && r.1 % 100 == 0 && r.0 <= r.1
    ensures forall i :: 0 <= i < |products| ==> r.0 <= products[i].price <= r.1
    ensures exists i :: 0 <= i < |products| && products[i].price < r.0 + 100
    ensures exists i :: 0 <= i < |products| && r.1 - 100 < products[i].price
  {
    (FloorWhole(MinPrice(products)), CeilWhole(MaxPrice(products)))
  }

  /** The catalog's prices run from 12 to 32, so the shop's bounds are [12, 32]. */
  lemma CatalogBounds()
    ensures |Products| == 8 && Bounds(Products) == (1200, 3200)
  {
    CatalogPriceRange();
    BoundsOfRange(Products, 4, 0);
  }

  /** When every price lies between the prices at `lo` and `hi`, both whole, these are the bounds. */
  lemma BoundsOfRange(products: seq<Product>, lo: nat, hi: nat)
    requires lo < |products| && hi < |products|
    requires products[lo].price % 100 == 0 && products[hi].price % 100 == 0
    requires forall i :: 0 <= i < |products| ==> products[lo].price <= products[i].price <= products[hi].price
    ensures Bounds(products) == (products[lo].price, products[hi].price)
  {
    var m := MinPrice(products);
    var n := MaxPrice(products);
    var i :| 0 <= i < |products| && products[i].price == m;
    var j :| 0 <= j < |products| && products[j].price == n;
    assert m == products[lo].price && n == products[hi].price;
    WholeUnchanged(m);
    WholeUnchanged(n);
  }

  /** Every catalog price lies in [12, 32]; the fifth product costs 12 and the first 32. */
  lemma CatalogPriceRange()
    ensures |Products| == 8
    ensures forall i :: 0 <= i < |Products| ==> 1200 <= Products[i].price <= 3200
    ensures Products[4].price == 1200 && Products[0].price == 3200
  {
  }

  /** `defaultFilters`: nothing selected, the full range, no rating minimum, every product. */
  function DefaultFilters(bounds: (Num, Num)): FiltersState {
    FiltersState([], [], bounds, None, false)
  }

  /** `activeFilterCount`: one for each kind of filter that narrows the results. */
  function ActiveFilterCount(f: FiltersState, bounds: (Num, Num)): (r: nat)
    ensures r <= 5
  {
    (if |f.categories| > 0 then 1 else 0)
    + (if |f.types| > 0 then 1 else 0)
    + (if f.vetApprovedOnly then 1 else 0)
    + (if f.minRating.Some? then 1 else 0)
    + (if f.price.0 != bounds.0 || f.price.1 != bounds.1 then 1 else 0)
  }

  /** No filter is counted exactly when the filters are the defaults. */
  lemma ActiveFilterCountZero(f: FiltersState, bounds: (Num, Num))
    ensures ActiveFilterCount(f, bounds) == 0 <==> f == DefaultFilters(bounds)
  {
    if ActiveFilterCount(f, bounds) == 0 {
      assert f.categories == [] && f.types == [];
      assert f.price == bounds;
    }
  }

  // ---------------------------------------------------------------------------
  // Reading the state from the URL
  // ---------------------------------------------------------------------------

  /** What the page shows: the search text, the sort key, the view mode and the filters. */
  datatype ShopView = ShopView(query: string, sort: string, view: string, filters: FiltersState)

  /** The URL names at least one of the keys the shop writes. */
  predicate HasAnyUrlState(sp: SearchParams) {
    Has(sp, "q") || Has(sp, "sort") || Has(sp, "view") || Has(sp, "c")
    || Has(sp, "t") || Has(sp, "p") || Has(sp, "r") || Has(sp, "v")
  }

  const AllowedCats: seq<string> := ["cat", "dog"]
  const AllowedTypes: seq<string> := ["food", "toy", "grooming"]

  /** `allowedCats.includes(x)`. */
  function IsAllowedCategory(): string -> bool {
    x => x in AllowedCats
  }

  /** `allowedTypes.includes(x)`. */
  function IsAllowedType(): string -> bool {
    x => x in AllowedTypes
  }

  function CategoryOf(name: string): (c: FilterCategory)
    requires name in AllowedCats
    ensures CategoryName(c) == name
  {
    if name == "cat" then Cat else Dog
  }

  function TypeOf(name: string): (t: ProductType)
    requires name in AllowedTypes
    ensures TypeName(t) == name
  {
    if name == "food" then Food else if name == "toy" then Toy else Grooming
  }

  /** The URL's categories that the shop knows, in order and with repeats kept. */
  function KnownCategories(raw: seq<string>): (r: seq<FilterCategory>)
    ensures CategoryNames(r) == Filter(raw, IsAllowedCategory())
  {
    var kept := Filter(raw, IsAllowedCategory());
    FilterSatisfies(raw, IsAllowedCategory());
    assert forall x :: x in kept ==> x in AllowedCats;
    seq(|kept|, i requires 0 <= i < |kept| => CategoryOf(kept[i]))
  }

  /** The URL's product types that the shop knows, in order and with repeats kept. */
  function KnownTypes(raw: seq<string>): (r: seq<ProductType>)
    ensures TypeNames(r) == Filter(raw, IsAllowedType())
  {
    var kept := Filter(raw, IsAllowedType());
    FilterSatisfies(raw, IsAllowedType());
    assert forall x :: x in kept ==> x in AllowedTypes;
    seq(|kept|, i requires 0 <= i < |kept| => TypeOf(kept[i]))
  }

  /**
   * The price range with each end clamped into the bounds: an end inside the
   * bounds stays, one below moves onto the lower bound and one above onto the
   * upper bound (and onto the lower bound when the bounds are out of order).
   */
  function ClampRange(price: (Num, Num), bounds: (Num, Num)): (r: (Num, Num))
    ensures bounds.0 <= bounds.1 ==> bounds.0 <= r.0 <= bounds.1 && bounds.0 <= r.1 <= bounds.1
    ensures bounds.0 <= price.0 <= bounds.1 && bounds.0 <= price.1 <= bounds.1 ==> r == price
    ensures bounds.0 <= price.0 <= bounds.1 ==> r.0 == price.0
    ensures price.0 < bounds.0 || bounds.1 < bounds.0 ==> r.0 == bounds.0
    ensures bounds.0 <= bounds.1 < price.0 ==> r.0 == bounds.1
    ensures bounds.0 <= price.1 <= bounds.1 ==> r.1 == price.1
    ensures price.1 < bounds.0 || bounds.1 < bounds.0 ==> r.1 == bounds.0
    ensures bounds.0 <= bounds.1 < price.1 ==> r.1 == bounds.1
  {
    (Clamp(price.0, bounds.0, bounds.1), Clamp(price.1, bounds.0, bounds.1))
  }

  /**
   * The first-load effect: with no shop key in the URL the page keeps what it
   * has; otherwise the URL replaces query, sort, view and filters, with
   * missing sort and view falling back to "popular" and "grid", unknown
   * categories and types dropped and the price ends clamped into the bounds.
   */
  function HydrateFromUrl(sp: SearchParams, current: ShopView, bounds: (Num, Num)): (r: ShopView)
    ensures !HasAnyUrlState(sp) ==> r == current
    ensures HasAnyUrlState(sp) ==>
      r.query == Get(sp, "q").GetOr("")
      && r.sort == Get(sp, "sort").GetOr("popular")
      && r.view == Get(sp, "view").GetOr("grid")
      && (r.filters.vetApprovedOnly <==> Get(sp, "v") == Some("1"))
      && (bounds.0 <= bounds.1 ==>
            bounds.0 <= r.filters.price.0 <= bounds.1 && bounds.0 <= r.filters.price.1 <= bounds.1)
    ensures HasAnyUrlState(sp) ==>
      CategoryNames(r.filters.categories) == Filter(SplitCsv(Get(sp, "c")), IsAllowedCategory())
      && TypeNames(r.filters.types) == Filter(SplitCsv(Get(sp, "t")), IsAllowedType())
      && r.filters.minRating == ParseRating(Get(sp, "r"))
      && r.filters.price == ClampRange(ParsePrice(Get(sp, "p"), bounds.0, bounds.1), bounds)
  {
    if !HasAnyUrlState(sp) then current
    else
      var parsed := ParseShopState(sp, bounds.0, bounds.1);
      var pf := parsed.filters;
      ShopView(
        parsed.q,
        parsed.sort.GetOr("popular"),
        parsed.view.GetOr("grid"),
        FiltersState(
          KnownCategories(pf.categories),
          KnownTypes(pf.types),
          ClampRange(pf.price, bounds),
          pf.minRating,
          pf.vetApprovedOnly))
  }

  /** A category name is a non-empty, trimmed, comma-free known name. */
  lemma CategoryNameSafe(c: FilterCategory)
    ensures var n := CategoryName(c); n != "" && IsTrimmed(n) && ',' !in n && n in AllowedCats
  {
  }

  lemma TypeNameSafe(t: ProductType)
    ensures var n := TypeName(t); n != "" && IsTrimmed(n) && ',' !in n && n in AllowedTypes
  {
  }

  /** The comma-joined category names split back into the names. */
  lemma CategoryNamesSplit(cs: seq<FilterCategory>)
    ensures SplitCsv(if cs == [] then None else Some(Join(CategoryNames(cs), ","))) == CategoryNames(cs)
  {
    var names := CategoryNames(cs);
    forall i | 0 <= i < |names| ensures names[i] != "" && IsTrimmed(names[i]) && ',' !in names[i] {
      CategoryNameSafe(cs[i]);
    }
    SplitCsvJoin(names);
  }

  lemma TypeNamesSplit(ts: seq<ProductType>)
    ensures SplitCsv(if ts == [] then None else Some(Join(TypeNames(ts), ","))) == TypeNames(ts)
  {
    var names := TypeNames(ts);
    forall i | 0 <= i < |names| ensures names[i] != "" && IsTrimmed(names[i]) && ',' !in names[i] {
      TypeNameSafe(ts[i]);
    }
    SplitCsvJoin(names);
  }

  /** Reading the names of known categories gives the categories back. */
  lemma KnownCategoryNames(cs: seq<FilterCategory>)
    ensures KnownCategories(CategoryNames(cs)) == cs
  {
    var names := CategoryNames(cs);
    forall x | x in names ensures IsAllowedCategory()(x) {
      var i :| 0 <= i < |names| && names[i] == x;
      CategoryNameSafe(cs[i]);
    }
    FilterAll(names, IsAllowedCategory());
    var r := KnownCategories(names);
    forall i | 0 <= i < |cs| ensures r[i] == cs[i] {
      assert CategoryName(r[i]) == CategoryName(cs[i]);
    }
  }

  lemma KnownTypeNames(ts: seq<ProductType>)
    ensures KnownTypes(TypeNames(ts)) == ts
  {
    var names := TypeNames(ts);
    forall x | x in names ensures IsAllowedType()(x) {
      var i :| 0 <= i < |names| && names[i] == x;
      TypeNameSafe(ts[i]);
    }
    FilterAll(names, IsAllowedType());
    var r := KnownTypes(names);
    forall i | 0 <= i < |ts| ensures r[i] == ts[i] {
      assert TypeName(r[i]) == TypeName(ts[i]);
    }
  }

  /** The categories survive writing, splitting and dropping unknown names. */
  lemma CategoriesRoundTrip(cs: seq<FilterCategory>)
    ensures KnownCategories(SplitCsv(if cs == [] then None else Some(Join(CategoryNames(cs), ",")))) == cs
  {
    CategoryNamesSplit(cs);
    KnownCategoryNames(cs);
  }

  /** The product types survive writing, splitting and dropping unknown names. */
  lemma TypesRoundTrip(ts: seq<ProductType>)
    ensures KnownTypes(SplitCsv(if ts == [] then None else Some(Join(TypeNames(ts), ",")))) == ts
  {
    TypeNamesSplit(ts);
    KnownTypeNames(ts);
  }

  /** The minimum rating survives writing and reading. */
  lemma RatingRoundTrip(minRating: Option<Num>)
    ensures ParseRating(When(minRating.Some?, ShowNumber(minRating.GetOr(0)))) == minRating
  {
    if minRating.Some? {
      ParseShow(minRating.value);
    }
  }

  /** A price range inside non-negative bounds survives writing, reading and clamping. */
  lemma PriceRoundTrip(price: (Num, Num), bounds: (Num, Num))
    requires 0 <= bounds.0 <= bounds.1
    requires bounds.0 <= price.0 <= bounds.1 && bounds.0 <= price.1 <= bounds.1
    ensures ClampRange(ParsePrice(When(price != bounds, PriceText(price)), bounds.0, bounds.1), bounds) == price
  {
    if price != bounds {
      ParsePriceText(price.0, price.1, bounds.0, bounds.1);
    }
  }

  /** The parser reads each key's value and nothing else. */
  lemma ParseOfValues(sp: SearchParams, vs: QueryValues, priceMin: Num, priceMax: Num)
    requires forall key :: Get(sp, key) == Lookup(vs, key)
    ensures ParseShopState(sp, priceMin, priceMax)
      == ParsedShopState(vs.q.GetOr(""), vs.sort, vs.view,
           ParsedFilters(SplitCsv(vs.c), SplitCsv(vs.t), ParsePrice(vs.p, priceMin, priceMax),
             ParseRating(vs.r), vs.v == Some("1")))
  {
    assert Get(sp, "q") == vs.q && Get(sp, "sort") == vs.sort && Get(sp, "view") == vs.view;
    assert Get(sp, "c") == vs.c && Get(sp, "t") == vs.t && Get(sp, "p") == vs.p;
    assert Get(sp, "r") == vs.r && Get(sp, "v") == vs.v;
  }

  /** What the parser reads from a built query string, key by key. */
  lemma ParseEncoded(input: BuildInput)
    ensures var vs := ValuesOf(input);
      ParseShopState(EncodeShopState(input), input.priceMin, input.priceMax)
      == ParsedShopState(Trim(input.q), Some(input.sort), Some(input.view),
           ParsedFilters(SplitCsv(vs.c), SplitCsv(vs.t), ParsePrice(vs.p, input.priceMin, input.priceMax),
             ParseRating(vs.r), input.filters.vetApprovedOnly))
  {
    var sp := EncodeShopState(input);
    var vs := ValuesOf(input);
    forall key ensures Get(sp, key) == Lookup(vs, key) {
      EncodeGet(input, key);
    }
    ParseOfValues(sp, vs, input.priceMin, input.priceMax);
  }

  /**
   * Reading back what the page wrote restores it: the query comes back
   * trimmed, everything else as it was, provided the price range lies inside
   * non-negative bounds.
   */
  lemma HydrateEncoded(query: string, sort: string, view: string, f: FiltersState,
                       bounds: (Num, Num), current: ShopView)
    requires 0 <= bounds.0 <= bounds.1
    requires bounds.0 <= f.price.0 <= bounds.1 && bounds.0 <= f.price.1 <= bounds.1
    ensures HydrateFromUrl(EncodeShopState(BuildInput(query, sort, view, f, bounds.0, bounds.1)), current, bounds)
         == ShopView(Trim(query), sort, view, f)
  {
    var input := BuildInput(query, sort, view, f, bounds.0, bounds.1);
    EncodeGet(input, "sort");
    ParseEncoded(input);
    CategoriesRoundTrip(f.categories);
    TypesRoundTrip(f.types);
    RatingRoundTrip(f.minRating);
    PriceRoundTrip(f.price, bounds);
  }

  /** Keeps saved filters valid when the bounds change: only the range moves, into the bounds. */
  function ClampSavedPrice(f: FiltersState, bounds: (Num, Num)): (r: FiltersState)
    ensures r == f.(price := r.price)
    ensures r.price == ClampRange(f.price, bounds)
    ensures bounds.0 <= bounds.1 ==>
      bounds.0 <= r.price.0 <= bounds.1 && bounds.0 <= r.price.1 <= bounds.1
  {
    f.(price := ClampRange(f.price, bounds))
  }

  /** Clamping saved filters twice is clamping them once, and leaves in-bounds filters alone. */
  lemma ClampSavedPriceIdempotent(f: FiltersState, bounds: (Num, Num))
    requires bounds.0 <= bounds.1
    ensures ClampSavedPrice(ClampSavedPrice(f, bounds), bounds) == ClampSavedPrice(f, bounds)
    ensures bounds.0 <= f.price.0 <= bounds.1 && bounds.0 <= f.price.1 <= bounds.1 ==>
      ClampSavedPrice(f, bounds) == f
  {
  }

  // ---------------------------------------------------------------------------
  // Price inputs
  // ---------------------------------------------------------------------------

  /**
   * The minimum-price input: text that is not a number is ignored; otherwise
   * the new minimum is clamped between the lower bound and the current
   * maximum, which stays.
   */
  function SetMin(raw: string, value: (Num, Num), bounds: (Num, Num)): (r: Option<(Num, Num)>)
    ensures r.None? <==> ParseNumber(raw).None?
    ensures r.Some? ==> r.value.1 == value.1
    ensures r.Some? && bounds.0 <= value.1 ==> bounds.0 <= r.value.0 <= value.1
    ensures r.Some? ==> r.value.0 == Clamp(ParseNumber(raw).value, bounds.0, value.1)
  {
    match ParseNumber(raw)
    case None => None
    case Some(n) => Some((Clamp(n, bounds.0, value.1), value.1))
  }

  /**
   * The maximum-price input: text that is not a number is ignored; otherwise
   * the new maximum is clamped between the current minimum and the upper
   * bound, and the minimum stays.
   */
  function SetMax(raw: string, value: (Num, Num), bounds: (Num, Num)): (r: Option<(Num, Num)>)
    ensures r.None? <==> ParseNumber(raw).None?
    ensures r.Some? ==> r.value.0 == value.0
    ensures r.Some? && value.0 <= bounds.1 ==> value.0 <= r.value.1 <= bounds.1
    ensures r.Some? ==> r.value.1 == Clamp(ParseNumber(raw).value, value.0, bounds.1)
  {
    match ParseNumber(raw)
    case None => None
    case Some(n) => Some((value.0, Clamp(n, value.0, bounds.1)))
  }

  /** A range inside the bounds with its ends in order. */
  predicate RangeWithin(value: (Num, Num), bounds: (Num, Num)) {
    bounds.0 <= value.0 <= value.1 <= bounds.1
  }

  /** Both inputs keep an ordered range inside the bounds. */
  lemma PriceInputsKeepRange(raw: string, value: (Num, Num), bounds: (Num, Num))
    requires RangeWithin(value, bounds)
    ensures SetMin(raw, value, bounds).Some? ==> RangeWithin(SetMin(raw, value, bounds).value, bounds)
    ensures SetMax(raw, value, bounds).Some? ==> RangeWithin(SetMax(raw, value, bounds).value, bounds)
  {
  }

  /**
   * Emptying an input reads as 0 (`Number("")`), not as "ignore": an emptied
   * minimum jumps to the lower bound and an emptied maximum collapses onto
   * the minimum.
   */
  lemma EmptiedPriceInputs(value: (Num, Num), bounds: (Num, Num))
    requires 0 <= bounds.0 <= value.0 <= value.1
    ensures SetMin("", value, bounds) == Some((bounds.0, value.1))
    ensures SetMax("", value, bounds) == Some((value.0, value.0))
  {
    ParseEmpty();
  }

  // ---------------------------------------------------------------------------
  // Writing the state back to the URL
  // ---------------------------------------------------------------------------

  /** `s.replace(/\?$/, "")`: drops one `?` at the very end. */
  function DropTrailingQuestionMark(s: string): (r: string)
    ensures r == s || (s == r + "?")
    ensures |s| > 0 && s[|s| - 1] == '?' ==> s == r + "?"
    ensures !(|s| > 0 && s[|s| - 1] == '?') ==> r == s
  {
    if |s| > 0 && s[|s| - 1] == '?' then s[..|s| - 1] else s
  }

  /** The address the page moves to: the path, and `?` with the query string when there is one. */
  function NextUrl(pathname: string, qs: string): string {
    if qs != "" then pathname + "?" + qs else pathname
  }

  /** The URL is rewritten only when the new address differs from the current one. */
  predicate NeedsReplace(pathname: string, currentQs: string, nextQs: string) {
    DropTrailingQuestionMark(NextUrl(pathname, nextQs)) != DropTrailingQuestionMark(pathname + "?" + currentQs)
  }

  /** A serialized query string does not end in `?`, since `?` is percent-encoded. */
  predicate EndsClean(qs: string) {
    qs == [] || qs[|qs| - 1] != '?'
  }

  /** For a path without `?`, the URL is rewritten exactly when the query string changes. */
  lemma NeedsReplaceExactly(pathname: string, currentQs: string, nextQs: string)
    requires '?' !in pathname && EndsClean(currentQs) && EndsClean(nextQs)
    ensures NeedsReplace(pathname, currentQs, nextQs) <==> currentQs != nextQs
  {
    var cur := pathname + "?" + currentQs;
    var next := NextUrl(pathname, nextQs);
    assert pathname == [] || pathname[|pathname| - 1] != '?';
    if currentQs == [] {
      assert cur == pathname + "?";
      assert DropTrailingQuestionMark(cur) == pathname;
    } else {
      assert cur[|cur| - 1] == currentQs[|currentQs| - 1];
      assert DropTrailingQuestionMark(cur) == cur;
    }
    if nextQs == [] {
      assert DropTrailingQuestionMark(next) == pathname;
      if currentQs != [] {
        assert |DropTrailingQuestionMark(cur)| > |pathname|;
      }
    } else {
      assert next[|next| - 1] == nextQs[|nextQs| - 1];
      assert DropTrailingQuestionMark(next) == next;
      if currentQs == [] {
        assert |next| > |pathname|;
      } else if next == cur {
        assert next[|pathname| + 1..] == nextQs;
        assert cur[|pathname| + 1..] == currentQs;
      }
    }
  }
}
