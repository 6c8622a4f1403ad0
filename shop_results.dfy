/**
 * The product list the shop page shows: the catalog narrowed by the applied
 * filters and the search text, one filter pass at a time, then sorted by
 * the chosen key on a copy.
 */
module ShopResults {
  import opened Wrappers
  import opened JsStrings
  import opened JsNumber
  import opened Sequences
  import opened Catalog
  import opened ShopTypes
  import opened ShopBrowsing

  // ---------------------------------------------------------------------------
  // The filter passes
  // ---------------------------------------------------------------------------

  /** The text a search is matched against: the name, a space and the tags joined by spaces. */
  function Haystack(p: Product): string {
    p.name + " " + Join(p.tags, " ")
  }

  /** `debouncedQuery.trim().toLowerCase()`. */
  function NormalizeQuery(query: string): string {
    ToLower(Trim(query))
  }

  /** Products for every pet, or for a selected pet. */
  function InCategories(f: FiltersState): Product -> bool {
    (p: Product) => p.category == Both || p.category in f.categories
  }

  function OfTypes(f: FiltersState): Product -> bool {
    (p: Product) => p.productType in f.types
  }

  function InPriceRange(f: FiltersState): Product -> bool {
    (p: Product) => p.price >= f.price.0 && p.price <= f.price.1
  }

  function AtLeastRating(min: Num): Product -> bool {
    (p: Product) => p.rating >= min
  }

  function IsVetApproved(): Product -> bool {
    (p: Product) => p.vetApproved
  }

  function MatchesQuery(normalizedQuery: string): Product -> bool {
    (p: Product) => Includes(ToLower(Haystack(p)), normalizedQuery)
  }

  /** A product passes every filter that is switched on. */
  predicate Selected(f: FiltersState, normalizedQuery: string, p: Product) {
    (|f.categories| > 0 ==> p.category == Both || p.category in f.categories)
    && (|f.types| > 0 ==> p.productType in f.types)
    && f.price.0 <= p.price <= f.price.1
    && (f.minRating.Some? ==> p.rating >= f.minRating.value)
    && (f.vetApprovedOnly ==> p.vetApproved)
    && (normalizedQuery != "" ==> Includes(ToLower(Haystack(p)), normalizedQuery))
  }

  function Matching(f: FiltersState, normalizedQuery: string): Product -> bool {
    (p: Product) => Selected(f, normalizedQuery, p)
  }

  /** `sort`'s comparator as an ascending key; an unknown sort key compares everything equal. */
  function SortKey(sort: string): Product -> int {
    if sort == "popular" then (p: Product) => -p.popularity
    else if sort == "rating" then (p: Product) => -p.rating
    else if sort == "price-asc" then (p: Product) => p.price
    else if sort == "price-desc" then (p: Product) => -p.price
    else (p: Product) => 0
  }

  /** The products the page lists: the selected ones, sorted stably by the key. */
  function ResultsOf(products: seq<Product>, f: FiltersState, normalizedQuery: string, sort: string): seq<Product> {
    SortByKey(Filter(products, Matching(f, normalizedQuery)), SortKey(sort))
  }

  // ---------------------------------------------------------------------------
  // The pipeline, pass by pass
  // ---------------------------------------------------------------------------

  /** Whether pass `k` runs (the price pass always does). */
  function Active(k: nat, f: FiltersState, normalizedQuery: string): bool {
    if k == 0 then |f.categories| > 0
    else if k == 1 then |f.types| > 0
    else if k == 2 then true
    else if k == 3 then f.minRating.Some?
    else if k == 4 then f.vetApprovedOnly
    else normalizedQuery != ""
  }

  /** The predicate of pass `k`. */
  function Test(k: nat, f: FiltersState, normalizedQuery: string): Product -> bool {
    if k == 0 then InCategories(f)
    else if k == 1 then OfTypes(f)
    else if k == 2 then InPriceRange(f)
    else if k == 3 then AtLeastRating(f.minRating.GetOr(0))
    else if k == 4 then IsVetApproved()
    else MatchesQuery(normalizedQuery)
  }

  /** A product passes the first `n` passes. */
  predicate Passes(n: nat, f: FiltersState, normalizedQuery: string, p: Product) {
    n == 0 || (Passes(n - 1, f, normalizedQuery, p)
               && (Active(n - 1, f, normalizedQuery) ==> Test(n - 1, f, normalizedQuery)(p)))
  }

  function UpTo(n: nat, f: FiltersState, normalizedQuery: string): Product -> bool {
    (p: Product) => Passes(n, f, normalizedQuery, p)
  }

  /** One pass: `filter` by the pass's predicate when the pass runs, the list as it is otherwise. */
  function Narrow(s: seq<Product>, active: bool, test: Product -> bool): seq<Product> {
    if active then Filter(s, test) else s
  }

  /** The products left after the first `n` passes, applied one after the other. */
  function Narrowed(s: seq<Product>, f: FiltersState, q: string, n: nat): seq<Product> {
    if n == 0 then s else Narrow(Narrowed(s, f, q, n - 1), Active(n - 1, f, q), Test(n - 1, f, q))
  }

  /** Pass `k` turns the products left by the first `k` passes into those left by `k + 1`. */
  lemma PassStep(s: seq<Product>, f: FiltersState, q: string, k: nat)
    ensures Narrow(Filter(s, UpTo(k, f, q)), Active(k, f, q), Test(k, f, q)) == Filter(s, UpTo(k + 1, f, q))
  {
    if Active(k, f, q) {
      FilterFilter(s, UpTo(k, f, q), Test(k, f, q), UpTo(k + 1, f, q));
    } else {
      FilterSame(s, UpTo(k, f, q), UpTo(k + 1, f, q));
    }
  }

  /** Running the passes one after the other is filtering once by all of them. */
  lemma {:induction false} NarrowedIsFilter(s: seq<Product>, f: FiltersState, q: string, n: nat)
    ensures Narrowed(s, f, q, n) == Filter(s, UpTo(n, f, q))
  {
    if n == 0 {
      FilterAll(s, UpTo(0, f, q));
    } else {
      NarrowedIsFilter(s, f, q, n - 1);
      PassStep(s, f, q, n - 1);
    }
  }

  /** The six passes keep exactly the selected products, in catalog order. */
  lemma SixPassesSelect(s: seq<Product>, f: FiltersState, q: string)
    ensures Narrowed(s, f, q, 6) == Filter(s, Matching(f, q))
  {
    NarrowedIsFilter(s, f, q, 6);
    forall p | p in s ensures UpTo(6, f, q)(p) == Matching(f, q)(p) {
      PassesAll(f, q, p);
    }
    FilterSame(s, UpTo(6, f, q), Matching(f, q));
  }

  /** Passing all six passes is being selected. */
  lemma PassesAll(f: FiltersState, q: string, p: Product)
    ensures Passes(6, f, q, p) <==> Selected(f, q, p)
  {
    assert Passes(1, f, q, p) <==> (Active(0, f, q) ==> Test(0, f, q)(p));
    assert Passes(2, f, q, p) <==> Passes(1, f, q, p) && (Active(1, f, q) ==> Test(1, f, q)(p));
    assert Passes(3, f, q, p) <==> Passes(2, f, q, p) && Test(2, f, q)(p);
    assert Passes(4, f, q, p) <==> Passes(3, f, q, p) && (Active(3, f, q) ==> Test(3, f, q)(p));
    assert Passes(5, f, q, p) <==> Passes(4, f, q, p) && (Active(4, f, q) ==> Test(4, f, q)(p));
  }

  /** `results`: the filter passes one after the other, then a sort of the copy. */
  method Results(products: seq<Product>, f: FiltersState, normalizedQuery: string, sort: string)
    returns (list: seq<Product>)
    ensures list == ResultsOf(products, f, normalizedQuery, sort)
  {
    ghost var q := normalizedQuery;
    list := products;
    if |f.categories| > 0 {
      list := Filter(list, InCategories(f));
    }
    assert list == Narrowed(products, f, q, 1);
    if |f.types| > 0 {
      list := Filter(list, OfTypes(f));
    }
    assert list == Narrowed(products, f, q, 2);
    list := Filter(list, InPriceRange(f));
    assert list == Narrowed(products, f, q, 3);
    if f.minRating.Some? {
      var min := f.minRating.value;
      list := Filter(list, AtLeastRating(min));
    }
    assert list == Narrowed(products, f, q, 4);
    if f.vetApprovedOnly {
      list := Filter(list, IsVetApproved());
    }
    assert list == Narrowed(products, f, q, 5);
    if normalizedQuery != "" {
      list := Filter(list, MatchesQuery(normalizedQuery));
    }
    assert list == Narrowed(products, f, q, 6);
    SixPassesSelect(products, f, q);
    list := SortByKey(list, SortKey(sort));
  }

  // ---------------------------------------------------------------------------
  // What the results are
  // ---------------------------------------------------------------------------

  /**
   * The results hold each selected catalog product as often as the catalog
   * does and nothing else: a permutation of exactly the selected products.
   */
  lemma ResultsCount(products: seq<Product>, f: FiltersState, q: string, sort: string, p: Product)
    ensures multiset(ResultsOf(products, f, q, sort))[p] == if Selected(f, q, p) then multiset(products)[p] else 0
  {
    FilterCount(products, Matching(f, q), p);
  }

  /** A product is listed exactly when it is in the catalog and passes every active filter. */
  lemma ResultsMembers(products: seq<Product>, f: FiltersState, q: string, sort: string, p: Product)
    ensures p in ResultsOf(products, f, q, sort) <==> p in products && Selected(f, q, p)
  {
    ResultsCount(products, f, q, sort, p);
    assert p in ResultsOf(products, f, q, sort) <==> p in multiset(ResultsOf(products, f, q, sort));
    assert p in products <==> p in multiset(products);
  }

  /** The results follow the chosen order. */
  lemma ResultsOrdered(products: seq<Product>, f: FiltersState, q: string, sort: string)
    ensures var r := ResultsOf(products, f, q, sort);
      && (sort == "popular" ==> forall i, j :: 0 <= i < j < |r| ==> r[i].popularity >= r[j].popularity)
      && (sort == "rating" ==> forall i, j :: 0 <= i < j < |r| ==> r[i].rating >= r[j].rating)
      && (sort == "price-asc" ==> forall i, j :: 0 <= i < j < |r| ==> r[i].price <= r[j].price)
      && (sort == "price-desc" ==> forall i, j :: 0 <= i < j < |r| ==> r[i].price >= r[j].price)
  {
    var r := ResultsOf(products, f, q, sort);
    var key := SortKey(sort);
    assert forall i, j :: 0 <= i < j < |r| ==> key(r[i]) <= key(r[j]);
  }

  /** Products that tie on the sort key keep their catalog order. */
  lemma ResultsStable(products: seq<Product>, f: FiltersState, q: string, sort: string, k: int)
    ensures Filter(ResultsOf(products, f, q, sort), KeyIs(SortKey(sort), k))
         == Filter(Filter(products, Matching(f, q)), KeyIs(SortKey(sort), k))
  {
    SortByKeyStable(Filter(products, Matching(f, q)), SortKey(sort), k);
  }

  /** An unknown sort key leaves the selected products in catalog order. */
  lemma ResultsUnknownSort(products: seq<Product>, f: FiltersState, q: string, sort: string)
    requires sort != "popular" && sort != "rating" && sort != "price-asc" && sort != "price-desc"
    ensures ResultsOf(products, f, q, sort) == Filter(products, Matching(f, q))
  {
    SortByConstantKey(Filter(products, Matching(f, q)), SortKey(sort), 0);
  }

  /** With the default filters and no search every catalog product is listed. */
  lemma DefaultsListEverything(products: seq<Product>, sort: string)
    requires |products| > 0
    ensures multiset(ResultsOf(products, DefaultFilters(Bounds(products)), "", sort)) == multiset(products)
  {
    var f := DefaultFilters(Bounds(products));
    forall p | p in products ensures Matching(f, "")(p) {
      var i :| 0 <= i < |products| && products[i] == p;
    }
    FilterAll(products, Matching(f, ""));
  }
}
