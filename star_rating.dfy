/**
 * The star strip drawn under a recipe's average rating: whole stars for the
 * integer part, one half star when the fractional part is at least one half,
 * and empty stars for the rest of five. Ratings are JavaScript numbers,
 * modelled as reals; `!rating` holds for an absent rating and for 0.
 */
module StarRatingView {
  import opened Wrappers

  datatype Size = Sm | Md | Lg

  /** The three drawings of `Star`. */
  datatype StarView = FullStar | HalfStar | EmptyStar

  /** The text beside the stars. */
  datatype Label = NoRating | RatingNumber(value: real) | NoLabel

  /**
   * What the component produces: a strip of stars, or the `RangeError` that
   * `[...Array(n)]` throws for a negative length.
   */
  datatype Rendered = Stars(stars: seq<StarView>, size: Size, caption: Label) | RangeError

  const DefaultSize: Size := Sm
  const DefaultShowNumber: bool := true

  /** `Star({filled, half})`: full when filled and not half, the half overlay when both, empty otherwise. */
  function StarVariant(filled: bool, half: bool): (v: StarView)
    ensures v == FullStar <==> filled && !half
    ensures v == HalfStar <==> filled && half
    ensures v == EmptyStar <==> !filled
  {
    if filled && !half then FullStar
    else if filled && half then HalfStar
    else EmptyStar
  }

  /** JavaScript's `Math.trunc`. */
  function Trunc(r: real): int {
    if r >= 0.0 then r.Floor else -((-r).Floor)
  }

  /** JavaScript's `r % 1`: the remainder takes the sign of `r`. */
  function JsRem1(r: real): (f: real)
    ensures r >= 0.0 ==> 0.0 <= f < 1.0
    ensures r < 0.0 ==> -1.0 < f <= 0.0
  {
    r - Trunc(r) as real
  }

  datatype Counts = Counts(full: int, half: bool, empty: int)

  function HalfCount(c: Counts): nat {
    if c.half then 1 else 0
  }

  /** `fullStars`, `hasHalfStar` and `emptyStars` of a rating. */
  function StarCounts(r: real): (c: Counts)
    ensures c.full as real <= r < c.full as real + 1.0
    ensures c.half <==> JsRem1(r) >= 0.5
    ensures c.full + HalfCount(c) + c.empty == 5
  {
    var full := r.Floor;
    var half := JsRem1(r) >= 0.5;
    Counts(full, half, 5 - full - (if half then 1 else 0))
  }

  function Repeat(n: nat, v: StarView): (s: seq<StarView>)
    ensures |s| == n && forall i :: 0 <= i < n ==> s[i] == v
  {
    seq(n, _ => v)
  }

  /** The strip for non-negative counts: full stars, then the half star if any, then empty stars. */
  function Strip(c: Counts): (s: seq<StarView>)
    requires c.full >= 0 && c.empty >= 0
    ensures |s| == c.full + HalfCount(c) + c.empty
    ensures forall i :: 0 <= i < |s| ==> (s[i] == FullStar <==> i < c.full)
    ensures forall i :: 0 <= i < |s| ==> (s[i] == HalfStar <==> c.half && i == c.full)
    ensures forall i :: 0 <= i < |s| ==> (s[i] == EmptyStar <==> i >= c.full + HalfCount(c))
  {
    Repeat(c.full, StarVariant(true, false))
      + (if c.half then [StarVariant(true, true)] else [])
      + Repeat(c.empty, StarVariant(false, false))
  }

  predicate HasRating(rating: Option<real>) {
    rating.Some? && rating.value != 0.0
  }

  /** `StarRating({rating, size, showNumber})` */
  function Render(rating: Option<real>, size: Size, showNumber: bool): (out: Rendered)
    ensures !HasRating(rating) ==> out == Stars(Repeat(5, EmptyStar), size, if showNumber then NoRating else NoLabel)
    ensures HasRating(rating) && out.Stars? ==> out.caption == if showNumber then RatingNumber(rating.value) else NoLabel
  {
    if !HasRating(rating) then
      Stars(Repeat(5, StarVariant(false, false)), size, if showNumber then NoRating else NoLabel)
    else
      var c := StarCounts(rating.value);
      if c.full < 0 || c.empty < 0 then RangeError
      else Stars(Strip(c), size, if showNumber then RatingNumber(rating.value) else NoLabel)
  }

  /**
   * A rating in (0, 5] gives non-negative counts that add up to five, and a
   * five-star strip of full stars, then at most one half star, then empty stars.
   */
  lemma RatingUpToFive(r: real, size: Size, showNumber: bool)
    requires 0.0 < r <= 5.0
    ensures var c := StarCounts(r);
      && 0 <= c.full <= 5 && 0 <= c.empty <= 5
      && c.full + HalfCount(c) + c.empty == 5
      && Render(Some(r), size, showNumber).Stars?
      && Render(Some(r), size, showNumber).stars == Strip(c)
      && |Strip(c)| == 5
  {
    var c := StarCounts(r);
    if r == 5.0 {
      assert c.full == 5 && JsRem1(r) == 0.0;
    } else {
      assert c.full <= 4;
      assert JsRem1(r) == r - c.full as real;
      if c.full == 4 {
        assert c.empty >= 0;
      }
    }
  }

  /** The whole stars are the integer part: a rating of 3.5 shows three full stars, a half and one empty. */
  lemma ThreeAndAHalf()
    ensures Render(Some(3.5), DefaultSize, DefaultShowNumber)
            == Stars([FullStar, FullStar, FullStar, HalfStar, EmptyStar], Sm, RatingNumber(3.5))
  {
    var c := StarCounts(3.5);
    assert c.full == 3 && JsRem1(3.5) == 0.5;
    assert c == Counts(3, true, 1);
    assert Strip(c) == [FullStar, FullStar, FullStar, HalfStar, EmptyStar];
  }

  /** Nothing guards the top: above five, the component throws exactly from 5.5 on. */
  lemma AboveFive(r: real, size: Size, showNumber: bool)
    requires r > 5.0
    ensures Render(Some(r), size, showNumber) == RangeError <==> r >= 5.5
  {
    var c := StarCounts(r);
    if r < 6.0 {
      assert c.full == 5;
      assert JsRem1(r) == r - 5.0;
    } else {
      assert c.full >= 6;
    }
  }

  /** A negative rating has a negative integer part, and the component throws. */
  lemma NegativeThrows(r: real, size: Size, showNumber: bool)
    requires r < 0.0
    ensures Render(Some(r), size, showNumber) == RangeError
  {
    assert StarCounts(r).full < 0;
  }
}
