/**
 * JavaScript numbers as the shop uses them. Every quantity the shop handles
 * (prices, ratings, price-filter ends) is modelled as a multiple of 0.01,
 * counted in hundredths: `3200` is 32, `470` is 4.7. `Number(s)` becomes
 * `ParseNumber` (None standing for NaN), `String(n)` becomes `ShowNumber`,
 * and `Math.floor` / `Math.ceil` to a whole number become `FloorWhole` /
 * `CeilWhole`.
 */
module JsNumber {
  import opened Wrappers
  import opened JsStrings

  /** A number in hundredths. */
  type Num = int

  /** The number 1, in hundredths. */
  const One: Num := 100

  predicate IsDigit(c: char) { '0' <= c <= '9' }

  predicate AllDigits(s: string) { forall i :: 0 <= i < |s| ==> IsDigit(s[i]) }

  function DigitValue(c: char): (d: nat)
    requires IsDigit(c)
    ensures d < 10
  {
    c as int - '0' as int
  }

  function DigitChar(d: nat): (c: char)
    requires d < 10
    ensures IsDigit(c) && DigitValue(c) == d
  {
    ('0' as int + d) as char
  }

  /** The value of a string of decimal digits, most significant digit first. */
  function DigitsValue(s: string): nat
    requires AllDigits(s)
  {
    if s == [] then 0 else DigitsValue(s[..|s| - 1]) * 10 + DigitValue(s[|s| - 1])
  }

  /** The decimal digits of `n`, without leading zeros ("0" for zero). */
  function NatToString(n: nat): (r: string)
    ensures |r| > 0 && AllDigits(r)
  {
    if n < 10 then [DigitChar(n)] else NatToString(n / 10) + [DigitChar(n % 10)]
  }

  lemma {:induction false} NatToStringValue(n: nat)
    ensures DigitsValue(NatToString(n)) == n
  {
    if n >= 10 {
      NatToStringValue(n / 10);
      var s := NatToString(n);
      assert s[..|s| - 1] == NatToString(n / 10);
    }
  }

  /** The value, in hundredths, of at most two digits written after a decimal point. */
  function FractionValue(f: string): (v: nat)
    requires AllDigits(f) && |f| <= 2
    ensures v < 100
  {
    if |f| == 0 then 0
    else if |f| == 1 then 10 * DigitValue(f[0])
    else 10 * DigitValue(f[0]) + DigitValue(f[1])
  }

  /** The digits after the decimal point of `f` hundredths, trailing zero dropped. */
  function FractionString(f: nat): (r: string)
    requires 0 < f < 100
    ensures 0 < |r| <= 2 && AllDigits(r) && FractionValue(r) == f
  {
    if f % 10 == 0 then [DigitChar(f / 10)] else [DigitChar(f / 10), DigitChar(f % 10)]
  }

  /** The position of the first `c` in `s`, or `|s|` when there is none. */
  function IndexOf(s: string, c: char): (i: nat)
    ensures i <= |s|
  {
    if s == [] then 0
    else if s[0] == c then 0
    else IndexOf(s[1..], c) + 1
  }

  /**
   * An unsigned decimal literal: digits, optionally followed by `.` and at most
   * two more digits, with at least one digit in all ("5.", ".5" and "5" are
   * numbers, "." is not).
   */
  function ParseUnsigned(u: string): Option<Num>
  {
    var k := IndexOf(u, '.');
    UnsignedOf(u[..k], if k < |u| then u[k + 1..] else "")
  }

  /** The number with the digits `whole` before the point and `frac` after it, if it is one. */
  function UnsignedOf(whole: string, frac: string): Option<Num>
  {
    if AllDigits(whole) && AllDigits(frac) && |frac| <= 2 && |whole| + |frac| > 0
    then Some(DigitsValue(whole) * 100 + FractionValue(frac))
    else None
  }

  /**
   * `Number(s)`: surrounding white space is ignored, an empty or blank string
   * is 0, an optional sign precedes the literal; `None` is NaN.
   */
  function ParseNumber(s: string): Option<Num>
  {
    var t := Trim(s);
    if t == "" then Some(0)
    else if t[0] == '-' then
      match ParseUnsigned(t[1..])
      case Some(n) => Some(-n)
      case None => None
    else if t[0] == '+' then ParseUnsigned(t[1..])
    else ParseUnsigned(t)
  }

  function ShowUnsigned(n: nat): (r: string)
    ensures |r| > 0 && IsDigit(r[0]) && IsDigit(r[|r| - 1])
    ensures forall i :: 0 <= i < |r| ==> IsDigit(r[i]) || r[i] == '.'
  {
    NatToString(n / 100) + (if n % 100 == 0 then "" else "." + FractionString(n % 100))
  }

  /** `String(n)`: the shortest decimal form, with a leading `-` when negative. */
  function ShowNumber(n: Num): (r: string)
    ensures |r| > 0 && IsTrimmed(r)
    ensures n >= 0 ==> forall i :: 0 <= i < |r| ==> IsDigit(r[i]) || r[i] == '.'
  {
    if n < 0 then "-" + ShowUnsigned(-n) else ShowUnsigned(n)
  }

  lemma {:induction false} IndexOfAfter(a: string, b: string, c: char)
    requires c !in a
    ensures IndexOf(a + b, c) == |a| + IndexOf(b, c)
  {
    if a != [] {
      assert (a + b)[1..] == a[1..] + b;
      IndexOfAfter(a[1..], b, c);
    } else {
      assert a + b == b;
    }
  }

  /** The first point after a run of digits is found past the digits. */
  lemma DotAfterDigits(w: string, rest: string)
    requires AllDigits(w)
    ensures IndexOf(w + rest, '.') == |w| + IndexOf(rest, '.')
  {
    forall i | 0 <= i < |w| ensures w[i] != '.' { assert IsDigit(w[i]); }
    IndexOfAfter(w, rest, '.');
  }

  /** Digits alone read as a whole number. */
  lemma ParseWhole(w: string)
    requires |w| > 0 && AllDigits(w)
    ensures ParseUnsigned(w) == Some(DigitsValue(w) * 100)
  {
    DotAfterDigits(w, "");
    assert w + "" == w;
    assert w[..|w|] == w;
    assert ParseUnsigned(w) == UnsignedOf(w, "");
  }

  /** Where the point of `${w}.${f}` is, and the two sides of it. */
  lemma DotSplit(w: string, f: string)
    requires AllDigits(w)
    ensures var u := w + "." + f; IndexOf(u, '.') == |w| < |u| && u[..|w|] == w && u[|w| + 1..] == f
  {
    var u := w + "." + f;
    assert u == w + ("." + f);
    DotAfterDigits(w, "." + f);
    assert IndexOf("." + f, '.') == 0;
  }

  /** Digits, a point and one or two more digits read as a number with a fraction. */
  lemma ParseWithFraction(w: string, f: string)
    requires |w| > 0 && AllDigits(w) && 0 < |f| <= 2 && AllDigits(f)
    ensures ParseUnsigned(w + "." + f) == Some(DigitsValue(w) * 100 + FractionValue(f))
  {
    DotSplit(w, f);
    assert ParseUnsigned(w + "." + f) == UnsignedOf(w, f);
  }

  lemma ParseShowUnsigned(n: nat)
    ensures ParseUnsigned(ShowUnsigned(n)) == Some(n)
  {
    var w := NatToString(n / 100);
    NatToStringValue(n / 100);
    assert n == (n / 100) * 100 + n % 100;
    if n % 100 == 0 {
      assert ShowUnsigned(n) == w + "" == w;
      ParseWhole(w);
    } else {
      var f := FractionString(n % 100);
      assert ShowUnsigned(n) == w + "." + f;
      ParseWithFraction(w, f);
    }
  }

  /** `Number` of a string that `trim` leaves alone and that does not start with a sign. */
  lemma ParseNumberUnsigned(t: string)
    requires t != "" && IsTrimmed(t) && IsDigit(t[0])
    ensures ParseNumber(t) == ParseUnsigned(t)
  {
    TrimOfTrimmed(t);
  }

  /** `Number` of a string that `trim` leaves alone and that starts with a minus sign. */
  lemma ParseNumberNegative(u: string, m: Num)
    requires IsTrimmed("-" + u)
    requires ParseUnsigned(u) == Some(m)
    ensures ParseNumber("-" + u) == Some(-m)
  {
    TrimOfTrimmed("-" + u);
    assert ("-" + u)[1..] == u;
  }

  /** A printed magnitude holds no minus sign. */
  lemma ShowUnsignedNoMinus(n: nat)
    ensures '-' !in ShowUnsigned(n)
  {
    var u := ShowUnsigned(n);
    forall i | 0 <= i < |u| ensures u[i] != '-' { assert IsDigit(u[i]) || u[i] == '.'; }
  }

  /** A printed number that is not negative holds no minus sign. */
  lemma ShowNumberNoMinus(n: Num)
    requires n >= 0
    ensures '-' !in ShowNumber(n)
  {
    ShowUnsignedNoMinus(n);
  }

  /** `Number(String(n)) == n`: printing then parsing a number gives it back. */
  lemma ParseShow(n: Num)
    ensures ParseNumber(ShowNumber(n)) == Some(n)
  {
    if n < 0 {
      ParseShowNegative(-n);
    } else {
      ParseShowUnsigned(n);
      ParseNumberUnsigned(ShowNumber(n));
    }
  }

  lemma ParseShowNegative(m: Num)
    requires m > 0
    ensures ParseNumber(ShowNumber(-m)) == Some(-m)
  {
    var u := ShowUnsigned(m);
    ParseShowUnsigned(m);
    assert ShowNumber(-m) == "-" + u;
    ParseNumberNegative(u, m);
  }

  /** `Math.floor` of a number of hundredths, as hundredths. */
  function FloorWhole(n: Num): (r: Num)
    ensures r % 100 == 0 && r <= n < r + 100
  {
    (n / 100) * 100
  }

  /** `Math.ceil` of a number of hundredths, as hundredths. */
  function CeilWhole(n: Num): (r: Num)
    ensures r % 100 == 0 && r - 100 < n <= r
  {
    -FloorWhole(-n)
  }

  /** A whole number is its own floor and ceiling. */
  lemma WholeUnchanged(n: Num)
    requires n % 100 == 0
    ensures FloorWhole(n) == n && CeilWhole(n) == n
  {
    var q := n / 100;
    assert n == q * 100;
    assert -n == (-q) * 100;
  }
}
