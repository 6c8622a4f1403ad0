/**
 * The five-star rating display: each of the five stars is drawn full, half
 * or empty from the whole part of the rating and its fraction. Ratings are
 * in hundredths of a star (`470` is 4.7).
 */
module RatingStars {
  import opened JsNumber

  /** How one star is drawn; neither flag set is an empty star. */
  datatype Star = Star(isFull: bool, isHalf: bool)

  const StarCount: nat := 5

  /** `Math.floor(rating)`, in whole stars. */
  function FullStars(rating: Num): (f: int)
    ensures f * 100 == FloorWhole(rating)
  {
    FloorWhole(rating) / 100
  }

  /** `rating - full >= 0.5`. */
  predicate HasHalf(rating: Num) {
    rating - FloorWhole(rating) >= 50
  }

  /** The five stars, `isFull = i < full` and `isHalf = i === full && half`. */
  function Stars(rating: Num): (r: seq<Star>)
    ensures |r| == StarCount
  {
    seq(StarCount, i => Star(i < FullStars(rating), i == FullStars(rating) && HasHalf(rating)))
  }

  /** Star `i` is full exactly when `i` is below the whole part of the rating. */
  lemma FullIff(rating: Num, i: nat)
    requires i < StarCount
    ensures Stars(rating)[i].isFull <==> (i + 1) * 100 <= rating
  {
    var f := FullStars(rating);
    assert f * 100 <= rating < f * 100 + 100;
    assert i < f <==> (i + 1) * 100 <= f * 100;
  }

  /**
   * Star `i` is half exactly when the rating lies in [i + 0.5, i + 1): the
   * one just after the full ones, when the fraction is at least one half.
   * No star is both full and half.
   */
  lemma HalfOnlyAfterFull(rating: Num, i: nat)
    requires i < StarCount
    ensures Stars(rating)[i].isHalf <==> i * 100 + 50 <= rating < (i + 1) * 100
    ensures !(Stars(rating)[i].isFull && Stars(rating)[i].isHalf)
  {
    var f := FullStars(rating);
    assert f * 100 <= rating < f * 100 + 100;
    assert Stars(rating)[i] == Star(i < f, i == f && HasHalf(rating));
    assert HasHalf(rating) ==> rating - f * 100 >= 50;
    if i * 100 + 50 <= rating < (i + 1) * 100 {
      assert f == i;
      assert HasHalf(rating);
    }
  }

  /** At most one star is half. */
  lemma AtMostOneHalf(rating: Num, i: nat, j: nat)
    requires i < j < StarCount
    ensures !(Stars(rating)[i].isHalf && Stars(rating)[j].isHalf)
  {
  }

  /** The number of full stars in `s`. */
  function FullCount(s: seq<Star>): nat {
    if s == [] then 0 else (if s[|s| - 1].isFull then 1 else 0) + FullCount(s[..|s| - 1])
  }

  lemma {:induction false} FullCountPrefix(rating: Num, k: nat)
    requires k <= StarCount
    ensures var f := FullStars(rating);
      FullCount(Stars(rating)[..k]) == if f < 0 then 0 else if f < k then f else k
  {
    if k > 0 {
      FullCountPrefix(rating, k - 1);
      assert Stars(rating)[..k][..k - 1] == Stars(rating)[..k - 1];
    }
  }

  /**
   * The number of full stars is the whole part of the rating, cut to the
   * range 0..5; for a rating between 0 and 5 it is exactly `Math.floor(rating)`.
   */
  lemma FullCountIsFloor(rating: Num)
    ensures var f := FullStars(rating);
      FullCount(Stars(rating)) == if f < 0 then 0 else if f < 5 then f else 5
    ensures 0 <= rating <= 500 ==> FullCount(Stars(rating)) * 100 == FloorWhole(rating)
  {
    FullCountPrefix(rating, StarCount);
    assert Stars(rating)[..StarCount] == Stars(rating);
  }
}
