/**
 * The home page's slideshow: an index into the list of cocktails that a
 * four-second timer advances, wrapping round, while there is more than one;
 * the slide it shows, and the row of dots under it. The timer is modelled by
 * the `Tick` it runs.
 */
module SlideshowView {
  import opened Wrappers
  import opened ClientTypes

  /** The effect sets an interval only for more than one cocktail. */
  predicate TimerRunning(count: nat) {
    count > 1
  }

  /** `(prev + 1) % cocktails.length` for a non-negative index and a non-empty list. */
  function Step(prev: nat, count: nat): (next: nat)
    requires count > 0
    ensures next < count
    ensures prev + 1 < count ==> next == prev + 1
    ensures prev + 1 == count ==> next == 0
  {
    (prev + 1) % count
  }

  /** `k` ticks of the timer. */
  function Steps(start: nat, count: nat, k: nat): nat
    requires count > 0
  {
    if k == 0 then start else Step(Steps(start, count, k - 1), count)
  }

  /** Ticks that do not reach the end of the list move one slide each. */
  lemma {:induction false} StepsForward(start: nat, count: nat, k: nat)
    requires start + k < count
    ensures Steps(start, count, k) == start + k
  {
    if k > 0 {
      StepsForward(start, count, k - 1);
    }
  }

  /** Ticking `a` times and then `b` times is ticking `a + b` times. */
  lemma {:induction false} StepsCompose(start: nat, count: nat, a: nat, b: nat)
    requires count > 0
    ensures Steps(start, count, a + b) == Steps(Steps(start, count, a), count, b)
  {
    if b > 0 {
      StepsCompose(start, count, a, b - 1);
    }
  }

  /**
   * From an index in range the slideshow walks to the last cocktail, wraps
   * to the first, and after as many ticks as there are cocktails is back
   * where it started.
   */
  lemma FullCycle(start: nat, count: nat)
    requires start < count
    ensures Steps(start, count, count - 1 - start) == count - 1
    ensures Steps(start, count, count - start) == 0
    ensures Steps(start, count, count) == start
  {
    StepsForward(start, count, count - 1 - start);
    assert Steps(start, count, count - start) == Step(count - 1, count);
    StepsForward(0, count, start);
    StepsCompose(start, count, count - start, start);
  }

  /** An image is shown only for a truthy `imageUrl`. */
  datatype Picture = Photo(src: string, alt: string) | NoImage

  /**
   * What the component renders: the placeholder for an empty list, or a
   * slide and its dots; reading `imageUrl` of an index past the end throws.
   */
  datatype Screen = Placeholder | Slide(picture: Picture, dots: seq<bool>) | Crash

  function PictureOf(r: Recipe): (p: Picture)
    ensures p.Photo? <==> r.imageUrl.Some? && r.imageUrl.value != ""
    ensures p.Photo? ==> p == Photo(r.imageUrl.value, r.title)
  {
    if r.imageUrl.Some? && r.imageUrl.value != "" then Photo(r.imageUrl.value, r.title) else NoImage
  }

  /** The dots: one per cocktail when there is more than one, highlighted at the current index. */
  function Dots(count: nat, index: nat): (dots: seq<bool>)
    ensures count <= 1 ==> dots == []
    ensures count > 1 ==> |dots| == count && forall j :: 0 <= j < count ==> (dots[j] <==> j == index)
  {
    if count > 1 then seq(count, j => j == index) else []
  }

  function View(cocktails: seq<Recipe>, index: nat): (s: Screen)
    ensures s == Placeholder <==> cocktails == []
    ensures s == Crash <==> cocktails != [] && index >= |cocktails|
    ensures s.Slide? ==> index < |cocktails| && s.picture == PictureOf(cocktails[index])
                         && s.dots == Dots(|cocktails|, index)
  {
    if cocktails == [] then Placeholder
    else if index >= |cocktails| then Crash
    else Slide(PictureOf(cocktails[index]), Dots(|cocktails|, index))
  }

  lemma {:induction false} CountLitAppend(a: seq<bool>, b: seq<bool>)
    ensures CountLit(a + b) == CountLit(a) + CountLit(b)
  {
    if a == [] {
      assert a + b == b;
    } else {
      assert (a + b)[1..] == a[1..] + b;
      CountLitAppend(a[1..], b);
    }
  }

  lemma {:induction false} CountLitNone(a: seq<bool>)
    requires forall j :: 0 <= j < |a| ==> !a[j]
    ensures CountLit(a) == 0
  {
    if a != [] {
      CountLitNone(a[1..]);
    }
  }

  /** With more than one cocktail and the index in range, exactly one dot is active. */
  lemma OneActiveDot(count: nat, index: nat)
    requires 1 < count && index < count
    ensures CountLit(Dots(count, index)) == 1
  {
    var d := Dots(count, index);
    assert d == d[..index] + [true] + d[index + 1..];
    CountLitAppend(d[..index] + [true], d[index + 1..]);
    CountLitAppend(d[..index], [true]);
    CountLitNone(d[..index]);
    CountLitNone(d[index + 1..]);
  }

  class Slideshow {
    var cocktails: seq<Recipe>
    var currentIndex: nat

    /** The first render starts at the first cocktail. */
    constructor(cocktails: seq<Recipe>)
      ensures this.cocktails == cocktails && currentIndex == 0
    {
      this.cocktails := cocktails;
      currentIndex := 0;
    }

    /** A new list from the parent: the index is kept as it is, neither reset nor clamped. */
    method SetCocktails(cs: seq<Recipe>)
      modifies this
      ensures cocktails == cs && currentIndex == old(currentIndex)
    {
      cocktails := cs;
    }

    /** One run of the interval (which exists only while the timer runs). */
    method Tick()
      requires TimerRunning(|cocktails|)
      modifies this
      ensures cocktails == old(cocktails)
      ensures currentIndex == Step(old(currentIndex), |cocktails|)
    {
      currentIndex := Step(currentIndex, |cocktails|);
    }

    function Shown(): Screen
      reads this
    {
      View(cocktails, currentIndex)
    }
  }

  /** A list that starts non-empty always shows a slide at first. */
  lemma FirstSlide(cocktails: seq<Recipe>)
    requires cocktails != []
    ensures View(cocktails, 0).Slide?
    ensures View(cocktails, 0).picture == PictureOf(cocktails[0])
  {
  }

  /** One tick brings any index back in range, whatever list it came from. */
  lemma TickRecovers(cocktails: seq<Recipe>, index: nat)
    requires TimerRunning(|cocktails|)
    ensures View(cocktails, Step(index, |cocktails|)).Slide?
  {
  }

  /**
   * Because the index is not clamped, a list that shrinks below it makes the
   * next render crash: at the third of three cocktails, a list of two throws.
   */
  lemma ShrinkCrashes(a: Recipe, b: Recipe, c: Recipe)
    ensures View([a, b, c], 2).Slide?
    ensures View([a, b], 2) == Crash
    ensures Step(2, 2) == 1 && View([a, b], Step(2, 2)).Slide?
  {
  }
}
