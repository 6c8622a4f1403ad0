/**
 * The shop page's state as a URL query string: `parseShopStateFromSearchParams`
 * reads the keys `q`, `sort`, `view`, `c`, `t`, `p`, `r` and `v`, and
 * `buildShopSearchParams` writes them. A query string is modelled as the
 * ordered list of (name, value) pairs a `URLSearchParams` holds.
 */
module ShopUrlState {
  import opened Wrappers
  import opened JsStrings
  import opened JsNumber
  import opened Sequences
  import opened Catalog
  import opened ShopTypes

  /** The (name, value) pairs of a `URLSearchParams`, in order. */
  type SearchParams = seq<(string, string)>

  /** `sp.get(name)`: the value of the first pair called `name`; None is `null`. */
  function Get(sp: SearchParams, name: string): Option<string>
  {
    if sp == [] then None
    else if sp[0].0 == name then Some(sp[0].1)
    else Get(sp[1..], name)
  }

  /** `sp.has(name)`. */
  predicate Has(sp: SearchParams, name: string) {
    Get(sp, name).Some?
  }

  /** The pairs of `sp` not called `name`. */
  function Without(sp: SearchParams, name: string): (r: SearchParams)
    ensures !Has(r, name)
  {
    if sp == [] then []
    else if sp[0].0 == name then Without(sp[1..], name)
    else [sp[0]] + Without(sp[1..], name)
  }

  /** The first pair called `name` gets `value`; later pairs called `name` are dropped. */
  function ReplaceFirst(sp: SearchParams, name: string, value: string): (r: SearchParams)
    requires Has(sp, name)
    ensures Get(r, name) == Some(value)
  {
    if sp[0].0 == name then [(name, value)] + Without(sp[1..], name)
    else [sp[0]] + ReplaceFirst(sp[1..], name, value)
  }

  /** `sp.set(name, value)`. */
  function SetParam(sp: SearchParams, name: string, value: string): (r: SearchParams)
    ensures Get(r, name) == Some(value)
  {
    if Has(sp, name) then ReplaceFirst(sp, name, value)
    else
      GetAppend(sp, [(name, value)], name);
      sp + [(name, value)]
  }

  lemma {:induction false} GetAppend(a: SearchParams, b: SearchParams, name: string)
    ensures Get(a + b, name) == if Has(a, name) then Get(a, name) else Get(b, name)
  {
    if a == [] {
      assert a + b == b;
    } else {
      assert (a + b)[1..] == a[1..] + b;
      GetAppend(a[1..], b, name);
    }
  }

  lemma {:induction false} WithoutGetOther(sp: SearchParams, name: string, key: string)
    requires key != name
    ensures Get(Without(sp, name), key) == Get(sp, key)
  {
    if sp != [] {
      WithoutGetOther(sp[1..], name, key);
    }
  }

  lemma {:induction false} ReplaceFirstGetOther(sp: SearchParams, name: string, value: string, key: string)
    requires Has(sp, name) && key != name
    ensures Get(ReplaceFirst(sp, name, value), key) == Get(sp, key)
  {
    if sp[0].0 == name {
      WithoutGetOther(sp[1..], name, key);
    } else {
      ReplaceFirstGetOther(sp[1..], name, value, key);
    }
  }

  /** `set` gives `name` its value and leaves every other name as it was. */
  lemma SetParamGet(sp: SearchParams, name: string, value: string, key: string)
    ensures Get(SetParam(sp, name, value), key) == if key == name then Some(value) else Get(sp, key)
  {
    if key != name {
      if Has(sp, name) {
        ReplaceFirstGetOther(sp, name, value, key);
      } else {
        GetAppend(sp, [(name, value)], key);
      }
    }
  }

  /** Setting a name the list does not hold appends the pair. */
  lemma SetParamFresh(sp: SearchParams, name: string, value: string)
    requires !Has(sp, name)
    ensures SetParam(sp, name, value) == sp + [(name, value)]
  {
  }

  /** The names of the pairs, in order. */
  function Names(sp: SearchParams): (r: seq<string>)
    ensures |r| == |sp|
  {
    if sp == [] then [] else [sp[0].0] + Names(sp[1..])
  }

  lemma {:induction false} NamesAppend(a: SearchParams, b: SearchParams)
    ensures Names(a + b) == Names(a) + Names(b)
  {
    if a == [] {
      assert a + b == b;
    } else {
      assert (a + b)[1..] == a[1..] + b;
      NamesAppend(a[1..], b);
    }
  }

  lemma {:induction false} HasNames(sp: SearchParams, name: string)
    ensures Has(sp, name) <==> name in Names(sp)
  {
    if sp != [] {
      HasNames(sp[1..], name);
    }
  }

  lemma {:induction false} WithoutNames(sp: SearchParams, name: string)
    ensures forall k :: k in Names(Without(sp, name)) <==> k in Names(sp) && k != name
    ensures Distinct(Names(sp)) ==> Distinct(Names(Without(sp, name)))
  {
    if sp != [] {
      WithoutNames(sp[1..], name);
      DistinctCons(sp[0].0, Names(sp[1..]));
      if sp[0].0 != name {
        DistinctCons(sp[0].0, Names(Without(sp[1..], name)));
      }
    }
  }

  lemma {:induction false} ReplaceFirstNames(sp: SearchParams, name: string, value: string)
    requires Has(sp, name)
    ensures forall k :: k in Names(ReplaceFirst(sp, name, value)) <==> k in Names(sp)
    ensures Distinct(Names(sp)) ==> Distinct(Names(ReplaceFirst(sp, name, value)))
  {
    DistinctCons(sp[0].0, Names(sp[1..]));
    if sp[0].0 == name {
      WithoutNames(sp[1..], name);
      DistinctCons(name, Names(Without(sp[1..], name)));
    } else {
      ReplaceFirstNames(sp[1..], name, value);
      DistinctCons(sp[0].0, Names(ReplaceFirst(sp[1..], name, value)));
    }
  }

  /** `set` adds the name if it is new and never repeats a name. */
  lemma SetParamNames(sp: SearchParams, name: string, value: string)
    ensures forall k :: k in Names(SetParam(sp, name, value)) <==> k in Names(sp) || k == name
    ensures Distinct(Names(sp)) ==> Distinct(Names(SetParam(sp, name, value)))
  {
    HasNames(sp, name);
    if Has(sp, name) {
      ReplaceFirstNames(sp, name, value);
    } else {
      NamesAppend(sp, [(name, value)]);
      var ns := Names(sp) + [name];
      if Distinct(Names(sp)) {
        forall i, j | 0 <= i < j < |ns| ensures ns[i] != ns[j] {
          if j == |sp| {
            assert ns[i] == Names(sp)[i];
          }
        }
      }
    }
  }

  // ---------------------------------------------------------------------------
  // Reading the state back
  // ---------------------------------------------------------------------------

  /** `.map((x) => x.trim())`. */
  function TrimAll(xs: seq<string>): (r: seq<string>)
    ensures |r| == |xs|
    ensures forall i :: 0 <= i < |xs| ==> r[i] == Trim(xs[i])
  {
    if xs == [] then [] else [Trim(xs[0])] + TrimAll(xs[1..])
  }

  function NonEmpty(): string -> bool {
    x => x != ""
  }

  /**
   * `splitCSV`: no value or an empty one gives no items; otherwise the
   * comma-separated pieces, trimmed, without the empty ones.
   */
  function SplitCsv(v: Option<string>): (r: seq<string>)
    ensures v.None? || v == Some("") ==> r == []
  {
    if v.None? || v.value == "" then []
    else Filter(TrimAll(Split(v.value, ',')), NonEmpty())
  }

  /** Each item is trimmed and non-empty and holds no comma. */
  lemma SplitCsvItems(v: Option<string>)
    ensures forall x :: x in SplitCsv(v) ==> x != "" && IsTrimmed(x) && ',' !in x
  {
    if v.Some? && v.value != "" {
      var pieces := Split(v.value, ',');
      SplitPiecesFree(v.value, ',');
      forall x | x in SplitCsv(v) ensures x != "" && IsTrimmed(x) && ',' !in x {
        FilterIn(TrimAll(pieces), NonEmpty(), x);
        var i :| 0 <= i < |pieces| && TrimAll(pieces)[i] == x;
        TrimIsSlice(pieces[i]);
        TrimIsTrimmed(pieces[i]);
      }
    }
  }

  /** The trimmed string is a slice of the original one. */
  lemma TrimIsSlice(s: string)
    ensures forall c :: c in Trim(s) ==> c in s
  {
    var t := TrimStart(s);
    TrimStartSpec(s);
    TrimEndSpec(t);
    assert t == s[|s| - |t|..];
    assert Trim(s) == t[..|Trim(s)|];
  }

  /**
   * Comma-joining items that are non-empty, trimmed and comma-free and
   * splitting them again gives them back.
   */
  lemma SplitCsvJoin(xs: seq<string>)
    requires forall i :: 0 <= i < |xs| ==> xs[i] != "" && IsTrimmed(xs[i]) && ',' !in xs[i]
    ensures SplitCsv(if xs == [] then None else Some(Join(xs, ","))) == xs
  {
    if xs != [] {
      SplitJoin(xs, ',');
      assert Join(xs, ",") != "" by { JoinFirst(xs, ","); }
      TrimAllTrimmed(xs);
      FilterAll(xs, NonEmpty());
    }
  }

  lemma {:induction false} JoinFirst(xs: seq<string>, sep: string)
    requires |xs| > 0
    ensures |Join(xs, sep)| >= |xs[0]|
  {
    if |xs| > 1 {
      assert Join(xs, sep) == xs[0] + sep + Join(xs[1..], sep);
    }
  }

  lemma {:induction false} TrimAllTrimmed(xs: seq<string>)
    requires forall i :: 0 <= i < |xs| ==> IsTrimmed(xs[i])
    ensures TrimAll(xs) == xs
  {
    forall i | 0 <= i < |xs| ensures TrimAll(xs)[i] == xs[i] {
      TrimOfTrimmed(xs[i]);
    }
  }

  /** The filters as read from the URL: categories and types are the raw items. */
  datatype ParsedFilters = ParsedFilters(
    categories: seq<string>,
    types: seq<string>,
    price: (Num, Num),
    minRating: Option<Num>,
    vetApprovedOnly: bool)

  datatype ParsedShopState = ParsedShopState(
    q: string,
    sort: Option<string>,
    view: Option<string>,
    filters: ParsedFilters)

  /**
   * The `p` value: when it holds a `-`, the numbers before the first `-` and
   * between the first and second `-` (the rest is ignored), used only when
   * both are numbers; otherwise the default range.
   */
  function ParsePrice(raw: Option<string>, priceMin: Num, priceMax: Num): (r: (Num, Num))
    ensures raw.None? || '-' !in raw.value ==> r == (priceMin, priceMax)
  {
    if raw.None? || raw.value == "" || '-' !in raw.value then (priceMin, priceMax)
    else
      var pieces := Split(raw.value, '-');
      RangeOf(ParseNumber(pieces[0]), ParseNumber(pieces[1]), priceMin, priceMax)
  }

  /** Both ends when both are numbers, the default range otherwise. */
  function RangeOf(lo: Option<Num>, hi: Option<Num>, priceMin: Num, priceMax: Num): (Num, Num) {
    if lo.Some? && hi.Some? then (lo.value, hi.value) else (priceMin, priceMax)
  }

  /** The `r` value: absent, empty or not a number gives no minimum. */
  function ParseRating(raw: Option<string>): (r: Option<Num>)
    ensures raw.None? || raw == Some("") ==> r.None?
    ensures r.Some? ==> ParseNumber(raw.value) == r
    ensures raw.Some? && raw.value != "" ==> r == ParseNumber(raw.value)
  {
    if raw.None? || raw.value == "" then None else ParseNumber(raw.value)
  }

  /** `parseShopStateFromSearchParams`. */
  function ParseShopState(sp: SearchParams, priceMin: Num, priceMax: Num): (r: ParsedShopState)
    ensures r.q == Get(sp, "q").GetOr("")
    ensures r.sort == Get(sp, "sort") && r.view == Get(sp, "view")
    ensures r.filters.vetApprovedOnly <==> Get(sp, "v") == Some("1")
    ensures !Has(sp, "p") ==> r.filters.price == (priceMin, priceMax)
    ensures !Has(sp, "r") ==> r.filters.minRating.None?
  {
    ParsedShopState(
      Get(sp, "q").GetOr(""),
      Get(sp, "sort"),
      Get(sp, "view"),
      ParsedFilters(
        SplitCsv(Get(sp, "c")),
        SplitCsv(Get(sp, "t")),
        ParsePrice(Get(sp, "p"), priceMin, priceMax),
        ParseRating(Get(sp, "r")),
        Get(sp, "v") == Some("1")))
  }

  lemma ParseEmpty()
    ensures ParseNumber("") == Some(0)
  {
    TrimOfTrimmed("");
  }

  /**
   * `${a}-${b}` followed by nothing or by more `-`-separated text reads as
   * the numbers `a` and `b` when both parse, and as the defaults otherwise.
   */
  lemma ParsePricePieces(a: string, b: string, rest: string, priceMin: Num, priceMax: Num)
    requires '-' !in a && '-' !in b
    requires rest == [] || rest[0] == '-'
    ensures ParsePrice(Some(a + "-" + b + rest), priceMin, priceMax)
         == RangeOf(ParseNumber(a), ParseNumber(b), priceMin, priceMax)
  {
    var t := a + "-" + b + rest;
    SplitFirstTwo(a, '-', b, rest);
    assert t[|a|] == '-';
  }

  /** A range read back from `${lo}-${hi}` is `[lo, hi]` when neither end is negative. */
  lemma ParsePriceText(lo: Num, hi: Num, priceMin: Num, priceMax: Num)
    requires lo >= 0 && hi >= 0
    ensures ParsePrice(Some(PriceText((lo, hi))), priceMin, priceMax) == (lo, hi)
  {
    ShowNumberNoMinus(lo);
    ShowNumberNoMinus(hi);
    assert PriceText((lo, hi)) == ShowNumber(lo) + "-" + ShowNumber(hi) + [];
    ParsePricePieces(ShowNumber(lo), ShowNumber(hi), [], priceMin, priceMax);
    ParseShow(lo);
    ParseShow(hi);
  }

  /**
   * A negative minimum is not read back: `${lo}-${hi}` then starts with the
   * sign, so the first piece is empty (0) and the second is the minimum's
   * magnitude.
   */
  lemma NegativeMinimumLost(m: Num, hi: Num, priceMin: Num, priceMax: Num)
    requires m > 0 && hi >= 0
    ensures ParsePrice(Some(PriceText((-m, hi))), priceMin, priceMax) == (0, m)
  {
    var u, b := ShowUnsigned(m), ShowNumber(hi);
    ShowUnsignedNoMinus(m);
    ShowNumberNoMinus(hi);
    ParseMagnitude(m);
    LeadingMinusRange(PriceText((-m, hi)), u, b, m, priceMin, priceMax);
  }

  /** `-${u}-${b}` reads as the range from 0 to the number `u`. */
  lemma LeadingMinusRange(t: string, u: string, b: string, m: Num, priceMin: Num, priceMax: Num)
    requires t == "-" + u + "-" + b
    requires '-' !in u && '-' !in b && ParseNumber(u) == Some(m)
    ensures ParsePrice(Some(t), priceMin, priceMax) == (0, m)
  {
    var e, rest := "", "-" + b;
    assert t == e + "-" + u + rest;
    ParsePricePieces(e, u, rest, priceMin, priceMax);
    ParseEmpty();
  }

  /** `Number` of the digits of a magnitude gives it back. */
  lemma ParseMagnitude(n: nat)
    ensures ParseNumber(ShowUnsigned(n)) == Some(n)
  {
    ParseShowUnsigned(n);
    ParseNumberUnsigned(ShowUnsigned(n));
  }

  /** A range without a maximum, `${a}-`, reads the maximum as 0, since `Number("")` is 0. */
  lemma MissingMaximumIsZero(a: string, priceMin: Num, priceMax: Num)
    requires '-' !in a
    ensures ParsePrice(Some(a + "-"), priceMin, priceMax)
         == if ParseNumber(a).Some? then (ParseNumber(a).value, 0) else (priceMin, priceMax)
  {
    assert a + "-" == a + "-" + "" + [];
    ParsePricePieces(a, "", [], priceMin, priceMax);
    ParseEmpty();
  }

  // ---------------------------------------------------------------------------
  // Writing the state
  // ---------------------------------------------------------------------------

  function CategoryNames(cs: seq<FilterCategory>): (r: seq<string>)
    ensures |r| == |cs|
    ensures forall i :: 0 <= i < |cs| ==> r[i] == CategoryName(cs[i])
  {
    if cs == [] then [] else [CategoryName(cs[0])] + CategoryNames(cs[1..])
  }

  function TypeNames(ts: seq<ProductType>): (r: seq<string>)
    ensures |r| == |ts|
    ensures forall i :: 0 <= i < |ts| ==> r[i] == TypeName(ts[i])
  {
    if ts == [] then [] else [TypeName(ts[0])] + TypeNames(ts[1..])
  }

  /** The `p` value: `${min}-${max}`. */
  function PriceText(price: (Num, Num)): string {
    ShowNumber(price.0) + "-" + ShowNumber(price.1)
  }

  /** The input of `buildShopSearchParams`; `priceMin` and `priceMax` are the default range. */
  datatype BuildInput = BuildInput(
    q: string, sort: string, view: string, filters: FiltersState, priceMin: Num, priceMax: Num)

  /** `sp.set(name, o.value)` when `o` holds a value, `sp` otherwise. */
  function SetOpt(sp: SearchParams, name: string, o: Option<string>): SearchParams {
    if o.Some? then SetParam(sp, name, o.value) else sp
  }

  lemma SetOptGet(sp: SearchParams, name: string, o: Option<string>, key: string)
    ensures Get(SetOpt(sp, name, o), key) == if key == name && o.Some? then o else Get(sp, key)
  {
    if o.Some? {
      SetParamGet(sp, name, o.value, key);
    }
  }

  /** The value, if any, that the builder gives each key of the query string. */
  datatype QueryValues = QueryValues(
    q: Option<string>, sort: Option<string>, view: Option<string>, c: Option<string>,
    t: Option<string>, p: Option<string>, r: Option<string>, v: Option<string>)

  /** The value `vs` holds for `key`; `None` for a key the shop does not use. */
  function Lookup(vs: QueryValues, key: string): Option<string> {
    if key == "q" then vs.q else if key == "sort" then vs.sort else if key == "view" then vs.view
    else if key == "c" then vs.c else if key == "t" then vs.t else if key == "p" then vs.p
    else if key == "r" then vs.r else if key == "v" then vs.v else None
  }

  /** The eight keys set one after the other, in the builder's order, on an empty query string. */
  function Assemble(vs: QueryValues): SearchParams
  {
    SetOpt(SetOpt(SetOpt(SetOpt(SetOpt(SetOpt(SetOpt(SetOpt([],
      "q", vs.q), "sort", vs.sort), "view", vs.view), "c", vs.c), "t", vs.t), "p", vs.p), "r", vs.r), "v", vs.v)
  }

  /** Each key holds the value given for it; every other key is absent. */
  lemma AssembleGet(vs: QueryValues, key: string)
    ensures Get(Assemble(vs), key) == Lookup(vs, key)
  {
    var sp0 := SetOpt([], "q", vs.q);
    var sp1 := SetOpt(sp0, "sort", vs.sort);
    var sp2 := SetOpt(sp1, "view", vs.view);
    var sp3 := SetOpt(sp2, "c", vs.c);
    var sp4 := SetOpt(sp3, "t", vs.t);
    var sp5 := SetOpt(sp4, "p", vs.p);
    var sp6 := SetOpt(sp5, "r", vs.r);
    SetOptGet([], "q", vs.q, key);
    SetOptGet(sp0, "sort", vs.sort, key);
    SetOptGet(sp1, "view", vs.view, key);
    SetOptGet(sp2, "c", vs.c, key);
    SetOptGet(sp3, "t", vs.t, key);
    SetOptGet(sp4, "p", vs.p, key);
    SetOptGet(sp5, "r", vs.r, key);
    SetOptGet(sp6, "v", vs.v, key);
  }

  function When(present: bool, value: string): Option<string> {
    if present then Some(value) else None
  }

  /**
   * What `buildShopSearchParams` gives each key: `q` the trimmed query when it
   * is not empty, `sort` and `view` always, `c` and `t` the comma-joined
   * selection when there is one, `p` the range when it differs from the
   * defaults, `r` the minimum rating when there is one and `v` "1" when only
   * vet-approved products are shown.
   */
  function ValuesOf(input: BuildInput): QueryValues {
    var f := input.filters;
    var q := Trim(input.q);
    QueryValues(When(q != "", q), Some(input.sort), Some(input.view),
      When(|f.categories| > 0, Join(CategoryNames(f.categories), ",")),
      When(|f.types| > 0, Join(TypeNames(f.types), ",")),
      When(f.price != (input.priceMin, input.priceMax), PriceText(f.price)),
      When(f.minRating.Some?, ShowNumber(f.minRating.GetOr(0))),
      When(f.vetApprovedOnly, "1"))
  }

  /** The query string `buildShopSearchParams` produces. */
  function EncodeShopState(input: BuildInput): SearchParams {
    Assemble(ValuesOf(input))
  }

  /** `buildShopSearchParams`: sets the keys one after the other on an empty query string. */
  method BuildShopSearchParams(input: BuildInput) returns (sp: SearchParams)
    ensures sp == EncodeShopState(input)
  {
    var f := input.filters;
    sp := [];
    var q := Trim(input.q);
    sp := SetOpt(sp, "q", When(q != "", q));
    sp := SetOpt(sp, "sort", Some(input.sort));
    sp := SetOpt(sp, "view", Some(input.view));
    sp := SetOpt(sp, "c", When(|f.categories| > 0, Join(CategoryNames(f.categories), ",")));
    sp := SetOpt(sp, "t", When(|f.types| > 0, Join(TypeNames(f.types), ",")));
    var (pMin, pMax) := f.price;
    sp := SetOpt(sp, "p", When(pMin != input.priceMin || pMax != input.priceMax, PriceText(f.price)));
    sp := SetOpt(sp, "r", When(f.minRating.Some?, ShowNumber(f.minRating.GetOr(0))));
    sp := SetOpt(sp, "v", When(f.vetApprovedOnly, "1"));
  }

  lemma SetOptNames(sp: SearchParams, name: string, o: Option<string>)
    ensures forall k :: k in Names(SetOpt(sp, name, o)) <==> k in Names(sp) || (k == name && o.Some?)
    ensures Distinct(Names(sp)) ==> Distinct(Names(SetOpt(sp, name, o)))
  {
    if o.Some? {
      SetParamNames(sp, name, o.value);
    }
  }

  lemma SetOptDistinct(sp: SearchParams, name: string, o: Option<string>)
    requires Distinct(Names(sp))
    ensures Distinct(Names(SetOpt(sp, name, o)))
  {
    SetOptNames(sp, name, o);
  }

  /** Setting the keys one after the other names each at most once. */
  lemma AssembleDistinct(vs: QueryValues)
    ensures Distinct(Names(Assemble(vs)))
  {
    var sp0 := SetOpt([], "q", vs.q);
    var sp1 := SetOpt(sp0, "sort", vs.sort);
    var sp2 := SetOpt(sp1, "view", vs.view);
    var sp3 := SetOpt(sp2, "c", vs.c);
    var sp4 := SetOpt(sp3, "t", vs.t);
    var sp5 := SetOpt(sp4, "p", vs.p);
    var sp6 := SetOpt(sp5, "r", vs.r);
    assert Distinct(Names([]));
    SetOptDistinct([], "q", vs.q);
    SetOptDistinct(sp0, "sort", vs.sort);
    SetOptDistinct(sp1, "view", vs.view);
    SetOptDistinct(sp2, "c", vs.c);
    SetOptDistinct(sp3, "t", vs.t);
    SetOptDistinct(sp4, "p", vs.p);
    SetOptDistinct(sp5, "r", vs.r);
    SetOptDistinct(sp6, "v", vs.v);
  }

  /** The assembled query string names each key at most once, and exactly the keys given a value. */
  lemma AssembleKeysOnce(vs: QueryValues)
    ensures Distinct(Names(Assemble(vs)))
    ensures forall k :: k in Names(Assemble(vs)) <==> Lookup(vs, k).Some?
    ensures vs.sort.Some? && vs.view.Some? ==> |Assemble(vs)| >= 2
  {
    AssembleDistinct(vs);
    var sp := Assemble(vs);
    forall k ensures k in Names(sp) <==> Lookup(vs, k).Some? {
      AssembleGet(vs, k);
      HasNames(sp, k);
    }
    if vs.sort.Some? && vs.view.Some? {
      TwoNames(Names(sp), "sort", "view");
    }
  }

  lemma AssembleSortView(vs: QueryValues)
    requires vs.sort.Some? && vs.view.Some?
    ensures var sp := Assemble(vs);
      Distinct(Names(sp)) && "sort" in Names(sp) && "view" in Names(sp) && |sp| >= 2
  {
    AssembleKeysOnce(vs);
    assert Lookup(vs, "sort").Some? && Lookup(vs, "view").Some?;
  }

  /** A sequence holding two different values has at least two elements. */
  lemma TwoNames(ns: seq<string>, a: string, b: string)
    requires a in ns && b in ns && a != b
    ensures |ns| >= 2
  {
    var i :| 0 <= i < |ns| && ns[i] == a;
    var j :| 0 <= j < |ns| && ns[j] == b;
    assert i != j;
  }

  /** The built query string names each key at most once, and always names `sort` and `view`. */
  lemma EncodeKeysOnce(input: BuildInput)
    ensures var sp := EncodeShopState(input);
      Distinct(Names(sp)) && "sort" in Names(sp) && "view" in Names(sp) && |sp| >= 2
  {
    var vs := ValuesOf(input);
    assert vs.sort == Some(input.sort) && vs.view == Some(input.view);
    AssembleSortView(vs);
  }

  /** Each key of the built query string holds the value the builder gave it last. */
  lemma EncodeGet(input: BuildInput, key: string)
    ensures Get(EncodeShopState(input), key) == Lookup(ValuesOf(input), key)
  {
    AssembleGet(ValuesOf(input), key);
  }
}
