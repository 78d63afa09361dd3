/** The home page's hero carousel: the index of the slide on show, the
    arrows and dots that move it, and the autoplay step that advances it
    every `AUTOPLAY_DELAY` milliseconds. */
module HeroSection {
  const AUTOPLAY_DELAY: nat := 7000

  /** JavaScript's `a % b`, which keeps the sign of `a`. */
  function JsRem(a: int, b: int): (r: int)
    requires b > 0
    ensures a >= 0 ==> 0 <= r < b && r == a % b
    ensures a < 0 ==> -b < r <= 0
  {
    if a >= 0 then a % b else -((-a) % b)
  }

  /** The remainder is the one `r` in `[0, n)` with `a == q * n + r`. */
  lemma ModUnique(a: int, n: int, q: int, r: int)
    requires n > 0 && 0 <= r < n && a == q * n + r
    ensures a % n == r
  {
    var d := q - a / n;
    assert d * n == a % n - r;
  }

  lemma DivMod(a: int, n: int)
    requires n > 0
    ensures a == (a / n) * n + a % n
  {
  }

  /** The index after the "next" arrow or an autoplay tick: one on, and
      back to 0 after the last slide. */
  function NextIndex(current: int, n: int): (r: int)
    requires n > 0
    ensures current >= 0 ==> 0 <= r < n
    ensures 0 <= current < n - 1 ==> r == current + 1
    ensures current == n - 1 ==> r == 0
  {
    if 0 <= current < n - 1 then
      ModUnique(current + 1, n, 0, current + 1);
      JsRem(current + 1, n)
    else if current == n - 1 then
      ModUnique(current + 1, n, 1, 0);
      JsRem(current + 1, n)
    else
      JsRem(current + 1, n)
  }

  /** The index after the "previous" arrow: one back, and round to the last
      slide from the first. */
  function PrevIndex(current: int, n: int): (r: int)
    requires n > 0
    ensures current >= 0 ==> 0 <= r < n
    ensures 0 < current < n ==> r == current - 1
    ensures current == 0 ==> r == n - 1
  {
    if 0 < current < n then
      ModUnique(current - 1 + n, n, 1, current - 1);
      JsRem(current - 1 + n, n)
    else if current == 0 then
      ModUnique(current - 1 + n, n, 0, n - 1);
      JsRem(current - 1 + n, n)
    else
      JsRem(current - 1 + n, n)
  }

  /** The arrows undo each other on every index in range. */
  lemma PrevUndoesNext(i: int, n: int)
    requires 0 <= i < n
    ensures PrevIndex(NextIndex(i, n), n) == i
    ensures NextIndex(PrevIndex(i, n), n) == i
  {
  }

  /** `k` steps of "next" from `i`. */
  function NextSteps(i: int, n: int, k: nat): int
    requires n > 0
  {
    if k == 0 then i else NextIndex(NextSteps(i, n, k - 1), n)
  }

  /** `k` steps forward from an index in range land `k` places on, modulo
      the number of slides. */
  lemma {:induction false} NextStepsValue(i: int, n: int, k: nat)
    requires 0 <= i < n
    ensures NextSteps(i, n, k) == (i + k) % n
  {
    if k > 0 {
      NextStepsValue(i, n, k - 1);
      ModStep(i + k - 1, n);
    }
  }

  /** One more than `x` leaves one more as remainder, or 0 past `n - 1`. */
  lemma ModStep(x: int, n: int)
    requires n > 0
    ensures x % n < n - 1 ==> (x + 1) % n == x % n + 1
    ensures x % n == n - 1 ==> (x + 1) % n == 0
  {
    var q, j := x / n, x % n;
    DivMod(x, n);
    if j < n - 1 {
      ModUnique(x + 1, n, q, j + 1);
    } else {
      Distribute(q, n);
      ModUnique(x + 1, n, q + 1, 0);
    }
  }

  lemma Distribute(q: int, n: int)
    ensures (q + 1) * n == q * n + n
  {
  }

  /** Going all the way round returns to the start. */
  lemma FullTurn(i: int, n: int)
    requires 0 <= i < n
    ensures NextSteps(i, n, n) == i
  {
    NextStepsValue(i, n, n);
    ModUnique(i + n, n, 1, i);
  }

  /** The slide on show: `activeIndex` held within the slides, 0 when there
      are none. */
  function SafeIndex(activeIndex: int, n: int): (r: int)
    ensures n > 0 && activeIndex >= 0 ==> 0 <= r < n
    ensures n > 0 && 0 <= activeIndex < n ==> r == activeIndex
    ensures n > 0 && activeIndex >= n ==> r == n - 1
    ensures n <= 0 ==> r == 0
  {
    if n > 0 then (if activeIndex < n - 1 then activeIndex else n - 1) else 0
  }

  /** The carousel's state: the index it was last sent to and the number of
      slides it is showing, which a new set of slides may change. */
  class Carousel {
    var activeIndex: int
    var slideCount: nat

    ghost predicate Valid()
      reads this
    {
      activeIndex >= 0
    }

    /** A first render shows slide 0. */
    constructor(n: nat)
      ensures Valid()
      ensures activeIndex == 0 && slideCount == n
    {
      activeIndex := 0;
      slideCount := n;
    }

    /** The slide on show. */
    function Shown(): (r: int)
      reads this
      requires Valid()
      ensures slideCount > 0 ==> 0 <= r < slideCount
    {
      SafeIndex(activeIndex, slideCount)
    }

    /** `translateX(-{safeIndex * 100}%)`: within the strip of slides. */
    function OffsetPercent(): (r: int)
      reads this
      requires Valid()
      ensures 0 <= r && (slideCount > 0 ==> r <= 100 * (slideCount - 1))
    {
      Shown() * 100
    }

    /** Dot `k` is lit exactly when it is the slide on show. */
    predicate DotLit(k: int)
      reads this
    {
      k == SafeIndex(activeIndex, slideCount)
    }

    /** The arrows, the dots and the autoplay exist only with more than one
        slide. */
    predicate HasControls()
      reads this
      ensures HasControls() ==> slideCount > 0
    {
      slideCount > 1
    }

    /** New slides: the index is kept and the shown slide clamped to them. */
    method SetSlides(n: nat)
      requires Valid()
      modifies this
      ensures Valid()
      ensures activeIndex == old(activeIndex) && slideCount == n
    {
      slideCount := n;
    }

    /** `handleNext`. */
    method Next()
      requires Valid() && HasControls()
      modifies this
      ensures Valid()
      ensures slideCount == old(slideCount) && activeIndex == NextIndex(old(activeIndex), slideCount)
    {
      activeIndex := JsRem(activeIndex + 1, slideCount);
    }

    /** `handlePrev`. */
    method Prev()
      requires Valid() && HasControls()
      modifies this
      ensures Valid()
      ensures slideCount == old(slideCount) && activeIndex == PrevIndex(old(activeIndex), slideCount)
    {
      activeIndex := JsRem(activeIndex - 1 + slideCount, slideCount);
    }

    /** A click on dot `k`. */
    method Dot(k: nat)
      requires Valid() && HasControls() && k < slideCount
      modifies this
      ensures Valid()
      ensures activeIndex == k && slideCount == old(slideCount)
      ensures Shown() == k && DotLit(k)
    {
      activeIndex := k;
    }

    /** One tick of the autoplay interval, which is only set up with more
        than one slide. */
    method Tick()
      requires Valid() && HasControls()
      modifies this
      ensures Valid()
      ensures slideCount == old(slideCount) && activeIndex == NextIndex(old(activeIndex), slideCount)
    {
      activeIndex := JsRem(activeIndex + 1, slideCount);
    }
  }

  /** The row of dots, lit or not. */
  function LitDots(activeIndex: int, n: nat): (r: seq<bool>)
    ensures |r| == n
  {
    seq(n, k requires 0 <= k < n => k == SafeIndex(activeIndex, n))
  }

  /** With slides, exactly one dot is lit: the slide on show. */
  lemma OneDotLit(activeIndex: int, n: nat)
    requires n > 0 && activeIndex >= 0
    ensures (set k | 0 <= k < n && LitDots(activeIndex, n)[k]) == {SafeIndex(activeIndex, n)}
  {
    var s := SafeIndex(activeIndex, n);
    assert LitDots(activeIndex, n)[s];
  }

  /** An index left past the end by fewer slides shows the last slide, and
      one step forward from it wraps into range. */
  lemma ShrunkSlides(activeIndex: int, n: int)
    requires n > 0 && activeIndex >= n
    ensures SafeIndex(activeIndex, n) == n - 1
    ensures 0 <= NextIndex(activeIndex, n) < n
  {
  }
}
