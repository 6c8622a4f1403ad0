/**
 * The array operations of JavaScript the shop builds on: `filter`, and
 * `sort` with a numeric comparator. ECMAScript has required
 * `Array.prototype.sort` to be stable since ES2019, so `sort((a, b) =>
 * key(a) - key(b))` is modelled as a stable insertion sort by `key`.
 */
module Sequences {

  /** `s.filter(f)`: the elements of `s` that satisfy `f`, in their order. */
  function Filter<T>(s: seq<T>, f: T -> bool): (r: seq<T>)
    ensures |r| <= |s|
  {
    if s == [] then []
    else (if f(s[0]) then [s[0]] else []) + Filter(s[1..], f)
  }

  /** What `filter` keeps: each element that satisfies `f` as often as in `s`, and nothing else. */
  lemma {:induction false} FilterCount<T>(s: seq<T>, f: T -> bool, x: T)
    ensures multiset(Filter(s, f))[x] == if f(x) then multiset(s)[x] else 0
  {
    if s != [] {
      FilterCount(s[1..], f, x);
      assert s == [s[0]] + s[1..];
      var h := if f(s[0]) then [s[0]] else [];
      assert multiset(Filter(s, f)) == multiset(h) + multiset(Filter(s[1..], f));
      assert multiset(s) == multiset{s[0]} + multiset(s[1..]);
    }
  }

  lemma FilterIn<T>(s: seq<T>, f: T -> bool, x: T)
    ensures x in Filter(s, f) <==> x in s && f(x)
  {
    FilterCount(s, f, x);
    assert x in Filter(s, f) <==> x in multiset(Filter(s, f));
    assert x in s <==> x in multiset(s);
  }

  lemma FilterCons<T>(a: T, t: seq<T>, f: T -> bool)
    ensures Filter([a] + t, f) == (if f(a) then [a] else []) + Filter(t, f)
  {
    assert ([a] + t)[1..] == t;
  }

  lemma {:induction false} FilterAppend<T>(a: seq<T>, b: seq<T>, f: T -> bool)
    ensures Filter(a + b, f) == Filter(a, f) + Filter(b, f)
  {
    if a != [] {
      assert (a + b)[1..] == a[1..] + b;
      FilterAppend(a[1..], b, f);
    } else {
      assert a + b == b;
    }
  }

  /** Filtering twice is filtering once by the conjunction. */
  lemma {:induction false} FilterFilter<T>(s: seq<T>, f: T -> bool, g: T -> bool, h: T -> bool)
    requires forall x :: x in s ==> (h(x) <==> f(x) && g(x))
    ensures Filter(Filter(s, f), g) == Filter(s, h)
  {
    if s != [] {
      FilterFilter(s[1..], f, g, h);
      FilterAppend(if f(s[0]) then [s[0]] else [], Filter(s[1..], f), g);
    }
  }

  /** `filter` keeps exactly the elements that satisfy the predicate. */
  lemma FilterMembership<T(!new)>(s: seq<T>, f: T -> bool)
    ensures forall x :: x in Filter(s, f) <==> x in s && f(x)
  {
    forall x ensures x in Filter(s, f) <==> x in s && f(x) {
      FilterIn(s, f, x);
    }
  }

  /** Every element `filter` keeps satisfies the predicate. */
  lemma FilterSatisfies<T>(s: seq<T>, f: T -> bool)
    ensures forall x :: x in Filter(s, f) ==> f(x)
  {
    forall x | x in Filter(s, f) ensures f(x) {
      FilterIn(s, f, x);
    }
  }

  /** Predicates that agree on the elements of `s` filter it alike. */
  lemma {:induction false} FilterSame<T>(s: seq<T>, f: T -> bool, g: T -> bool)
    requires forall x :: x in s ==> f(x) == g(x)
    ensures Filter(s, f) == Filter(s, g)
  {
    if s != [] {
      FilterSame(s[1..], f, g);
    }
  }

  /** Filtering by a predicate every element satisfies changes nothing. */
  lemma {:induction false} FilterAll<T>(s: seq<T>, f: T -> bool)
    requires forall x :: x in s ==> f(x)
    ensures Filter(s, f) == s
  {
    if s != [] {
      FilterAll(s[1..], f);
      assert [s[0]] + s[1..] == s;
    }
  }

  /** `a` is `b` with some elements left out, the rest in their order. */
  predicate IsSubsequence<T(==)>(a: seq<T>, b: seq<T>)
    decreases |b|
  {
    if a == [] then true
    else if b == [] then false
    else if a[0] == b[0] then IsSubsequence(a[1..], b[1..])
    else IsSubsequence(a, b[1..])
  }

  /** `filter` only leaves elements out: what it keeps stays in order. */
  lemma {:induction false} FilterIsSubsequence<T>(s: seq<T>, f: T -> bool)
    ensures IsSubsequence(Filter(s, f), s)
  {
    if s != [] {
      FilterIsSubsequence(s[1..], f);
      var rest := Filter(s[1..], f);
      if f(s[0]) {
        assert Filter(s, f) == [s[0]] + rest;
        assert ([s[0]] + rest)[1..] == rest;
      } else {
        assert Filter(s, f) == rest;
        SkipHead(rest, s);
      }
    }
  }

  /** A subsequence of the tail is a subsequence of the whole. */
  lemma {:induction false} SkipHead<T>(a: seq<T>, b: seq<T>)
    requires b != [] && IsSubsequence(a, b[1..])
    ensures IsSubsequence(a, b)
    decreases |b|, |a|
  {
    if a != [] && a[0] == b[0] {
      DropHead(a, b[1..]);
    }
  }

  /** Leaving out the first element of a subsequence keeps it a subsequence. */
  lemma {:induction false} DropHead<T>(a: seq<T>, b: seq<T>)
    requires a != [] && IsSubsequence(a, b)
    ensures IsSubsequence(a[1..], b)
    decreases |b|, |a|
  {
    assert b != [];
    if a[0] == b[0] {
      SkipHead(a[1..], b);
    } else {
      DropHead(a, b[1..]);
      SkipHead(a[1..], b);
    }
  }

  /** The keys of `s` never decrease. */
  ghost predicate SortedByKey<T>(s: seq<T>, key: T -> int) {
    forall i, j :: 0 <= i < j < |s| ==> key(s[i]) <= key(s[j])
  }

  /** Places `x` before the first element of `s` whose key is not smaller than its own. */
  function Insert<T>(x: T, s: seq<T>, key: T -> int): (r: seq<T>)
    ensures |r| == |s| + 1
    ensures multiset(r) == multiset(s) + multiset{x}
  {
    if s == [] || key(x) <= key(s[0]) then [x] + s
    else
      assert s == [s[0]] + s[1..];
      [s[0]] + Insert(x, s[1..], key)
  }

  /** A lower bound on the keys of `x` and of `s` bounds the keys after inserting. */
  lemma {:induction false} InsertBound<T>(x: T, s: seq<T>, key: T -> int, b: int)
    requires b <= key(x) && forall i :: 0 <= i < |s| ==> b <= key(s[i])
    ensures forall i :: 0 <= i < |Insert(x, s, key)| ==> b <= key(Insert(x, s, key)[i])
  {
    if s != [] && key(x) > key(s[0]) {
      InsertBound(x, s[1..], key, b);
    }
  }

  /** Inserting into a sequence sorted by key keeps it sorted. */
  lemma {:induction false} InsertSorted<T>(x: T, s: seq<T>, key: T -> int)
    requires SortedByKey(s, key)
    ensures SortedByKey(Insert(x, s, key), key)
  {
    if s != [] && key(x) > key(s[0]) {
      var rest := Insert(x, s[1..], key);
      InsertSorted(x, s[1..], key);
      InsertBound(x, s[1..], key, key(s[0]));
      ConsSorted(s[0], rest, key);
    }
  }

  /** A sorted sequence stays sorted behind an element whose key bounds all of its keys. */
  lemma ConsSorted<T>(y: T, t: seq<T>, key: T -> int)
    requires SortedByKey(t, key) && forall k :: 0 <= k < |t| ==> key(y) <= key(t[k])
    ensures SortedByKey([y] + t, key)
  {
    var r := [y] + t;
    forall i, j | 0 <= i < j < |r| ensures key(r[i]) <= key(r[j]) {
      assert r[j] == t[j - 1];
      if i > 0 {
        assert r[i] == t[i - 1];
      }
    }
  }

  /** `s.slice().sort((a, b) => key(a) - key(b))`, stable. */
  function SortByKey<T>(s: seq<T>, key: T -> int): (r: seq<T>)
    ensures |r| == |s|
    ensures multiset(r) == multiset(s)
    ensures SortedByKey(r, key)
  {
    if s == [] then []
    else
      assert s == [s[0]] + s[1..];
      var t := SortByKey(s[1..], key);
      InsertSorted(s[0], t, key);
      Insert(s[0], t, key)
  }

  /** Holds of the elements whose key is `k`. */
  function KeyIs<T>(key: T -> int, k: int): T -> bool {
    x => key(x) == k
  }

  lemma {:induction false} InsertStable<T>(x: T, s: seq<T>, key: T -> int, k: int)
    ensures Filter(Insert(x, s, key), KeyIs(key, k))
         == (if key(x) == k then [x] else []) + Filter(s, KeyIs(key, k))
  {
    var p := KeyIs(key, k);
    if s == [] || key(x) <= key(s[0]) {
      assert Insert(x, s, key) == [x] + s;
      FilterCons(x, s, p);
    } else {
      var rest := Insert(x, s[1..], key);
      InsertStable(x, s[1..], key, k);
      assert Insert(x, s, key) == [s[0]] + rest;
      FilterCons(s[0], rest, p);
      FilterCons(s[0], s[1..], p);
      assert [s[0]] + s[1..] == s;
      if key(x) == k {
        assert !p(s[0]);
        assert Filter(Insert(x, s, key), p) == Filter(rest, p);
        assert Filter(s, p) == Filter(s[1..], p);
      } else {
        assert Filter(rest, p) == Filter(s[1..], p);
      }
    }
  }

  /**
   * Stability: among elements with equal keys, the sorted sequence keeps the
   * order of the input.
   */
  lemma {:induction false} SortByKeyStable<T>(s: seq<T>, key: T -> int, k: int)
    ensures Filter(SortByKey(s, key), KeyIs(key, k)) == Filter(s, KeyIs(key, k))
  {
    if s != [] {
      SortByKeyStable(s[1..], key, k);
      InsertStable(s[0], SortByKey(s[1..], key), key, k);
    }
  }

  /** A key that is the same for every element leaves the order as it is. */
  lemma SortByConstantKey<T>(s: seq<T>, key: T -> int, k: int)
    requires forall x :: x in s ==> key(x) == k
    ensures SortByKey(s, key) == s
  {
    SortByKeyStable(s, key, k);
    FilterAll(s, KeyIs(key, k));
    FilterAll(SortByKey(s, key), KeyIs(key, k));
  }

  /** No element occurs twice. */
  predicate Distinct<T(==)>(s: seq<T>) {
    forall i, j :: 0 <= i < j < |s| ==> s[i] != s[j]
  }

  /** A sequence with a head has no repeats when the head is new and the tail has none. */
  lemma DistinctCons<T>(a: T, r: seq<T>)
    ensures Distinct([a] + r) <==> a !in r && Distinct(r)
  {
    var s := [a] + r;
    assert forall k :: 0 <= k < |r| ==> s[k + 1] == r[k];
    if Distinct(s) {
      assert a !in r by {
        forall k | 0 <= k < |r| ensures r[k] != a {
          assert s[0] == a && s[k + 1] == r[k];
        }
      }
      forall i, j | 0 <= i < j < |r| ensures r[i] != r[j] {
        assert s[i + 1] == r[i] && s[j + 1] == r[j];
      }
    }
    if a !in r && Distinct(r) {
      forall i, j | 0 <= i < j < |s| ensures s[i] != s[j] {
        if i == 0 {
          assert s[j] == r[j - 1];
        } else {
          assert s[i] == r[i - 1] && s[j] == r[j - 1];
        }
      }
    }
  }

  /** The set of the elements of `s`. */
  function Elements<T(!new)>(s: seq<T>): (r: set<T>)
    ensures forall x :: x in r <==> x in s
  {
    set x | x in s
  }

  /** A sequence without repeated elements has as many elements as its set. */
  lemma {:induction false} DistinctElements<T(!new)>(s: seq<T>)
    requires Distinct(s)
    ensures |Elements(s)| == |s|
  {
    if s != [] {
      DistinctElements(s[1..]);
      assert s[0] !in s[1..];
      assert Elements(s) == {s[0]} + Elements(s[1..]);
    }
  }

  /**
   * For sequences without repeated elements, "as long as `b` and every
   * element of `a` is in `b`" is "the same elements".
   */
  lemma SameElements<T(!new)>(a: seq<T>, b: seq<T>)
    requires Distinct(a) && Distinct(b)
    ensures (|a| == |b| && forall x :: x in a ==> x in b) <==> Elements(a) == Elements(b)
  {
    DistinctElements(a);
    DistinctElements(b);
    if |a| == |b| && forall x :: x in a ==> x in b {
      var d := Elements(b) - Elements(a);
      assert Elements(b) == Elements(a) + d;
      assert Elements(a) * d == {};
      assert |Elements(b)| == |Elements(a)| + |d|;
    }
  }

  /** `xs.reduce((sum, x) => sum + f(x), 0)`. */
  function SumOf<T>(s: seq<T>, f: T -> int): int
  {
    if s == [] then 0 else f(s[0]) + SumOf(s[1..], f)
  }

  lemma {:induction false} SumOfAppend<T>(a: seq<T>, b: seq<T>, f: T -> int)
    ensures SumOf(a + b, f) == SumOf(a, f) + SumOf(b, f)
  {
    if a == [] {
      assert a + b == b;
    } else {
      assert (a + b)[1..] == a[1..] + b;
      SumOfAppend(a[1..], b, f);
    }
  }

  /** Replacing one element changes the sum by the difference of the two terms. */
  lemma SumOfUpdate<T>(s: seq<T>, i: nat, x: T, f: T -> int)
    requires i < |s|
    ensures SumOf(s[i := x], f) == SumOf(s, f) - f(s[i]) + f(x)
  {
    var a, b := s[..i], s[i + 1..];
    SplitAround(s, i);
    assert s[i := x] == a + [x] + b;
    SumOfAround(a, s[i], b, f);
    SumOfAround(a, x, b, f);
  }

  /** Dropping one element lowers the sum by its term. */
  lemma SumOfRemove<T>(s: seq<T>, i: nat, f: T -> int)
    requires i < |s|
    ensures SumOf(s[..i] + s[i + 1..], f) == SumOf(s, f) - f(s[i])
  {
    var a, b := s[..i], s[i + 1..];
    SplitAround(s, i);
    SumOfAround(a, s[i], b, f);
    SumOfAppend(a, b, f);
  }

  lemma SplitAround<T>(s: seq<T>, i: nat)
    requires i < |s|
    ensures s == s[..i] + [s[i]] + s[i + 1..]
  {
  }

  lemma SumOfAround<T>(a: seq<T>, y: T, b: seq<T>, f: T -> int)
    ensures SumOf(a + [y] + b, f) == SumOf(a, f) + f(y) + SumOf(b, f)
  {
    SumOfAppend(a + [y], b, f);
    SumOfAppend(a, [y], f);
    assert SumOf([y], f) == f(y);
  }

  /** A sum of terms that are each at least `m` is at least `m` times the length. */
  lemma {:induction false} SumOfAtLeast<T>(s: seq<T>, f: T -> int, m: int)
    requires forall i :: 0 <= i < |s| ==> f(s[i]) >= m
    ensures SumOf(s, f) >= m * |s|
  {
    if s != [] {
      SumOfAtLeast(s[1..], f, m);
      assert f(s[0]) >= m;
    }
  }
}
