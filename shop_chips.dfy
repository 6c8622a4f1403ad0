/**
 * The removable chips above the results: one for a non-blank search, one per
 * selected category and type, and one each for the vet switch, a rating
 * minimum and a narrowed price range. Each chip names what pressing it
 * removes.
 */
module ShopChips {
  import opened Wrappers
  import opened JsStrings
  import opened JsNumber
  import opened Sequences
  import opened Catalog
  import opened ShopTypes
  import opened ShopBrowsing

  /**
   * A chip, by what it stands for; its React key and its label are derived
   * from that, and pressing it removes what it stands for.
   */
  datatype Chip =
    | SearchChip(text: string)
    | CategoryChip(category: FilterCategory)
    | TypeChip(productType: ProductType)
    | VetChip
    | RatingChip(minRating: Num)
    | PriceChip(price: (Num, Num))
  {
    function Key(): string {
      match this
      case SearchChip(_) => "q"
      case CategoryChip(c) => "c:" + CategoryName(c)
      case TypeChip(t) => "t:" + TypeName(t)
      case VetChip => "vet"
      case RatingChip(_) => "rating"
      case PriceChip(_) => "price"
    }

    function Label(): string {
      match this
      case SearchChip(q) => "Search: \U{201C}" + q + "\U{201D}"
      case CategoryChip(c) => "Category: " + CategoryName(c)
      case TypeChip(t) => "Type: " + TypeName(t)
      case VetChip => "Vet-approved only"
      case RatingChip(r) => "Rating: " + ShowNumber(r) + "+"
      case PriceChip(p) => "Price: " + FormatMoney(p.0) + "\U{2013}" + FormatMoney(p.1)
    }
  }

  /**
   * `formatMoney`: `$` and the amount rounded to a whole number by
   * `toFixed(0)`, which rounds halves up in magnitude and writes a `-` for
   * any negative amount (so -0.3 shows as `$-0`).
   */
  function FormatMoney(n: Num): (r: string)
    ensures |r| > 1 && r[0] == '$'
  {
    var m := if n < 0 then -n else n;
    "$" + (if n < 0 then "-" else "") + NatToString((m + 50) / 100)
  }

  /** For a whole, non-negative amount the money text is `$` and the amount as `String` writes it. */
  lemma FormatMoneyWhole(n: nat)
    requires n % 100 == 0
    ensures FormatMoney(n) == "$" + ShowNumber(n)
  {
    var w := NatToString(n / 100);
    WholeRoundsToItself(n);
    assert FormatMoney(n) == "$" + "" + w;
    assert ShowUnsigned(n) == w + "";
  }

  /**
   * The money text of any amount is `$`, a `-` when the amount is negative,
   * and the whole number `w` nearest to its magnitude, halves rounded up
   * (so -0.3 shows as `$-0` and 2.5 as `$3`).
   */
  lemma FormatMoneyRounds(n: Num, w: nat)
    requires var m := if n < 0 then -n else n; w * 100 - 50 <= m < w * 100 + 50
    ensures FormatMoney(n) == "$" + (if n < 0 then "-" else "") + ShowNumber(w * 100)
  {
    var m := if n < 0 then -n else n;
    assert (m + 50) / 100 == w;
    assert (w * 100) / 100 == w && (w * 100) % 100 == 0;
    assert ShowNumber(w * 100) == NatToString(w) + "";
  }

  /** Rounding a whole amount to whole units changes nothing. */
  lemma WholeRoundsToItself(n: nat)
    requires n % 100 == 0
    ensures (n + 50) / 100 == n / 100
  {
    var k := n / 100;
    assert n == k * 100;
    assert n + 50 == k * 100 + 50;
  }

  /** The search chip, present when the trimmed query is not empty. */
  function QueryChips(query: string): seq<Chip> {
    if Trim(query) != "" then [SearchChip(Trim(query))] else []
  }

  /** One chip per selected category, in selection order. */
  function CategoryChips(cs: seq<FilterCategory>): (r: seq<Chip>)
    ensures |r| == |cs|
    ensures forall i :: 0 <= i < |cs| ==> r[i] == CategoryChip(cs[i])
  {
    if cs == [] then [] else CategoryChips(cs[..|cs| - 1]) + [CategoryChip(cs[|cs| - 1])]
  }

  /** One chip per selected product type, in selection order. */
  function TypeChips(ts: seq<ProductType>): (r: seq<Chip>)
    ensures |r| == |ts|
    ensures forall i :: 0 <= i < |ts| ==> r[i] == TypeChip(ts[i])
  {
    if ts == [] then [] else TypeChips(ts[..|ts| - 1]) + [TypeChip(ts[|ts| - 1])]
  }

  /** The vet, rating and price chips, each when its filter narrows the results. */
  function SwitchChips(f: FiltersState, bounds: (Num, Num)): seq<Chip> {
    (if f.vetApprovedOnly then [VetChip] else [])
    + (if f.minRating.Some? then [RatingChip(f.minRating.value)] else [])
    + (if f.price.0 != bounds.0 || f.price.1 != bounds.1 then [PriceChip(f.price)] else [])
  }

  /** The chips, in the order the page lists them. */
  function ChipList(query: string, f: FiltersState, bounds: (Num, Num)): seq<Chip> {
    QueryChips(query) + CategoryChips(f.categories) + TypeChips(f.types) + SwitchChips(f, bounds)
  }

  /** `chips`: pushes the chips one at a time. */
  method BuildChips(query: string, f: FiltersState, bounds: (Num, Num)) returns (list: seq<Chip>)
    ensures list == ChipList(query, f, bounds)
  {
    list := [];
    var q := Trim(query);
    if q != "" {
      list := list + [SearchChip(q)];
    }
    assert list == QueryChips(query);
    list := PushCategoryChips(list, f.categories);
    list := PushTypeChips(list, f.types);
    list := PushSwitchChips(list, f, bounds);
  }

  /** The last three `if (...) list.push(...)` steps of `chips`. */
  method PushSwitchChips(list: seq<Chip>, f: FiltersState, bounds: (Num, Num)) returns (r: seq<Chip>)
    ensures r == list + SwitchChips(f, bounds)
  {
    r := list;
    ghost var tail: seq<Chip> := [];
    if f.vetApprovedOnly {
      r, tail := r + [VetChip], tail + [VetChip];
    }
    assert r == list + tail;
    if f.minRating.Some? {
      r, tail := r + [RatingChip(f.minRating.value)], tail + [RatingChip(f.minRating.value)];
    }
    assert r == list + tail;
    if f.price.0 != bounds.0 || f.price.1 != bounds.1 {
      r, tail := r + [PriceChip(f.price)], tail + [PriceChip(f.price)];
    }
    assert r == list + tail;
  }

  /** `categories.forEach(c => list.push(...))`: one chip per category, in order. */
  method PushCategoryChips(list: seq<Chip>, cs: seq<FilterCategory>) returns (r: seq<Chip>)
    ensures r == list + CategoryChips(cs)
  {
    r := list;
    var i := 0;
    while i < |cs|
      invariant 0 <= i <= |cs|
      invariant r == list + CategoryChips(cs[..i])
    {
      CategoryChipsSnoc(cs, i);
      assert list + CategoryChips(cs[..i]) + [CategoryChip(cs[i])] == list + CategoryChips(cs[..i + 1]);
      r := r + [CategoryChip(cs[i])];
      i := i + 1;
    }
    assert cs[..i] == cs;
  }

  /** `types.forEach(t => list.push(...))`: one chip per product type, in order. */
  method PushTypeChips(list: seq<Chip>, ts: seq<ProductType>) returns (r: seq<Chip>)
    ensures r == list + TypeChips(ts)
  {
    r := list;
    var j := 0;
    while j < |ts|
      invariant 0 <= j <= |ts|
      invariant r == list + TypeChips(ts[..j])
    {
      TypeChipsSnoc(ts, j);
      assert list + TypeChips(ts[..j]) + [TypeChip(ts[j])] == list + TypeChips(ts[..j + 1]);
      r := r + [TypeChip(ts[j])];
      j := j + 1;
    }
    assert ts[..j] == ts;
  }

  lemma CategoryChipsSnoc(cs: seq<FilterCategory>, i: nat)
    requires i < |cs|
    ensures CategoryChips(cs[..i + 1]) == CategoryChips(cs[..i]) + [CategoryChip(cs[i])]
  {
    assert cs[..i + 1][..i] == cs[..i];
  }

  lemma TypeChipsSnoc(ts: seq<ProductType>, j: nat)
    requires j < |ts|
    ensures TypeChips(ts[..j + 1]) == TypeChips(ts[..j]) + [TypeChip(ts[j])]
  {
    assert ts[..j + 1][..j] == ts[..j];
  }

  /**
   * One chip per selected category and type, and one each for a non-blank
   * search and for every other filter that narrows the results.
   */
  lemma ChipCount(query: string, f: FiltersState, bounds: (Num, Num))
    ensures |ChipList(query, f, bounds)| ==
      |f.categories| + |f.types| + (if Trim(query) != "" then 1 else 0)
      + (if f.vetApprovedOnly then 1 else 0) + (if f.minRating.Some? then 1 else 0)
      + (if f.price.0 != bounds.0 || f.price.1 != bounds.1 then 1 else 0)
  {
  }

  /** There are no chips exactly when the search is blank and no filter is counted. */
  lemma NoChips(query: string, f: FiltersState, bounds: (Num, Num))
    ensures ChipList(query, f, bounds) == [] <==> Trim(query) == "" && ActiveFilterCount(f, bounds) == 0
  {
    ChipCount(query, f, bounds);
  }

  /** The page state a chip's remove button acts on. */
  datatype PageState = PageState(query: string, filters: FiltersState)

  function Chips(s: PageState, bounds: (Num, Num)): seq<Chip> {
    ChipList(s.query, s.filters, bounds)
  }

  /** Pressing a chip's remove button: it clears what the chip stands for and nothing else. */
  function Remove(ch: Chip, s: PageState, bounds: (Num, Num)): (r: PageState)
    ensures ch.SearchChip? ==> r.query == "" && r.filters == s.filters
    ensures !ch.SearchChip? ==> r.query == s.query
    ensures ch.CategoryChip? ==>
      && r.filters == s.filters.(categories := r.filters.categories)
      && multiset(r.filters.categories) == multiset(s.filters.categories)[ch.category := 0]
      && IsSubsequence(r.filters.categories, s.filters.categories)
    ensures ch.TypeChip? ==>
      && r.filters == s.filters.(types := r.filters.types)
      && multiset(r.filters.types) == multiset(s.filters.types)[ch.productType := 0]
      && IsSubsequence(r.filters.types, s.filters.types)
    ensures ch.VetChip? ==> r.filters == s.filters.(vetApprovedOnly := false)
    ensures ch.RatingChip? ==> r.filters == s.filters.(minRating := None)
    ensures ch.PriceChip? ==> r.filters == s.filters.(price := bounds)
  {
    var f := s.filters;
    match ch
    case SearchChip(_) => s.(query := "")
    case CategoryChip(c) =>
      DropAll(f.categories, c);
      s.(filters := f.(categories := Filter(f.categories, Other(c))))
    case TypeChip(t) =>
      DropAll(f.types, t);
      s.(filters := f.(types := Filter(f.types, Other(t))))
    case VetChip => s.(filters := f.(vetApprovedOnly := false))
    case RatingChip(_) => s.(filters := f.(minRating := None))
    case PriceChip(_) => s.(filters := f.(price := bounds))
  }

  /** Two chips stand for the same part of the state. */
  predicate SameTarget(a: Chip, b: Chip) {
    match a
    case SearchChip(_) => b.SearchChip?
    case RatingChip(_) => b.RatingChip?
    case PriceChip(_) => b.PriceChip?
    case _ => a == b
  }

  /** What each chip in the list says about the state it was made from. */
  lemma ChipMeaning(s: PageState, bounds: (Num, Num), ch: Chip)
    requires ch in Chips(s, bounds)
    ensures ch.SearchChip? ==> ch.text == Trim(s.query) != ""
    ensures ch.CategoryChip? ==> ch.category in s.filters.categories
    ensures ch.TypeChip? ==> ch.productType in s.filters.types
    ensures ch.VetChip? ==> s.filters.vetApprovedOnly
    ensures ch.RatingChip? ==> s.filters.minRating == Some(ch.minRating)
    ensures ch.PriceChip? ==> ch.price == s.filters.price != bounds
  {
    var f := s.filters;
    var cats := CategoryChips(f.categories);
    var types := TypeChips(f.types);
    assert Chips(s, bounds) == QueryChips(s.query) + cats + types + SwitchChips(f, bounds);
    if ch in cats {
      var i :| 0 <= i < |cats| && cats[i] == ch;
    } else if ch in types {
      var i :| 0 <= i < |types| && types[i] == ch;
    }
  }

  /** A category or type chip is in the list exactly when its category or type is selected. */
  lemma SelectionChipPresent(s: PageState, bounds: (Num, Num), c: FilterCategory, t: ProductType)
    ensures CategoryChip(c) in Chips(s, bounds) <==> c in s.filters.categories
    ensures TypeChip(t) in Chips(s, bounds) <==> t in s.filters.types
  {
    var f := s.filters;
    var cats := CategoryChips(f.categories);
    var types := TypeChips(f.types);
    assert Chips(s, bounds) == QueryChips(s.query) + cats + types + SwitchChips(f, bounds);
    if c in f.categories {
      var i :| 0 <= i < |f.categories| && f.categories[i] == c;
      assert cats[i] == CategoryChip(c);
    }
    if t in f.types {
      var i :| 0 <= i < |f.types| && f.types[i] == t;
      assert types[i] == TypeChip(t);
    }
    if CategoryChip(c) in Chips(s, bounds) {
      ChipMeaning(s, bounds, CategoryChip(c));
    }
    if TypeChip(t) in Chips(s, bounds) {
      ChipMeaning(s, bounds, TypeChip(t));
    }
  }

  /** Pressing a chip leaves no chip standing for the same part of the state. */
  lemma RemovedChipDisappears(s: PageState, bounds: (Num, Num), ch: Chip)
    requires ch in Chips(s, bounds)
    ensures forall other :: other in Chips(Remove(ch, s, bounds), bounds) ==> !SameTarget(ch, other)
  {
    var r := Remove(ch, s, bounds);
    forall other | other in Chips(r, bounds) ensures !SameTarget(ch, other) {
      ChipMeaning(r, bounds, other);
      match ch {
        case CategoryChip(c) =>
          FilterIn(s.filters.categories, Other(c), c);
        case TypeChip(t) =>
          FilterIn(s.filters.types, Other(t), t);
        case _ =>
      }
    }
  }
}
