/** The project carousel of `ProjectCarousel.tsx`: how many cards a width
    shows, the slide index with wrap-around, the animation lock that makes
    a second move a no-op until the 500 ms release, hover pausing, and the
    derived controls (arrows, dots, counter). Widths are inputs; the timer
    release is an explicit event. */
module ProjectCarousel {

  /** `handleResize`: one card below 768 px, two below 1024 px, otherwise
      `itemsPerView`. */
  function VisibleFor(width: int, itemsPerView: int): (r: int)
    ensures width < 768 ==> r == 1
    ensures 768 <= width < 1024 ==> r == 2
    ensures 1024 <= width ==> r == itemsPerView
  {
    if width < 768 then 1 else if width < 1024 then 2 else itemsPerView
  }

  /** `Math.max(0, projects.length - visibleItems)`. */
  function MaxIndexFor(count: nat, visible: int): (r: nat)
    ensures r >= count - visible
    ensures r == 0 || r == count - visible
  {
    if count - visible > 0 then count - visible else 0
  }

  /** The index after `nextSlide`: the last position wraps to the first. */
  function NextIndex(i: int, maxIndex: nat): int {
    if i >= maxIndex then 0 else i + 1
  }

  /** The index after `prevSlide`: the first position wraps to the last. */
  function PrevIndex(i: int, maxIndex: nat): int {
    if i <= 0 then maxIndex else i - 1
  }

  /** Both moves keep an index in `[0, maxIndex]` in that range. */
  lemma MovesStayInRange(i: int, maxIndex: nat)
    requires 0 <= i <= maxIndex
    ensures 0 <= NextIndex(i, maxIndex) <= maxIndex
    ensures 0 <= PrevIndex(i, maxIndex) <= maxIndex
  {
  }

  /** Going back after going forward, or forward after going back, restores
      the index. */
  lemma MovesInverse(i: int, maxIndex: nat)
    requires 0 <= i <= maxIndex
    ensures PrevIndex(NextIndex(i, maxIndex), maxIndex) == i
    ensures NextIndex(PrevIndex(i, maxIndex), maxIndex) == i
  {
  }

  /** `nextSlide` applied `n` times. */
  function Advance(i: int, maxIndex: nat, n: nat): int
    decreases n
  {
    if n == 0 then i else NextIndex(Advance(i, maxIndex, n - 1), maxIndex)
  }

  /** Steps compose: `a` steps then `b` steps are `a + b` steps. */
  lemma {:induction false} AdvanceAdd(i: int, maxIndex: nat, a: nat, b: nat)
    ensures Advance(Advance(i, maxIndex, a), maxIndex, b) == Advance(i, maxIndex, a + b)
    decreases b
  {
    if b > 0 {
      AdvanceAdd(i, maxIndex, a, b - 1);
      assert Advance(i, maxIndex, a + b) == NextIndex(Advance(i, maxIndex, a + b - 1), maxIndex);
    }
  }

  /** Auto-advance walks forward one position per step until the last
      position. */
  lemma {:induction false} AdvanceClimbs(i: int, maxIndex: nat, n: nat)
    requires 0 <= i && i + n <= maxIndex
    ensures Advance(i, maxIndex, n) == i + n
  {
    if n > 0 {
      AdvanceClimbs(i, maxIndex, n - 1);
    }
  }

  /** So `maxIndex + 1` steps walk round every position and come back to
      the start. */
  lemma FullCycle(i: int, maxIndex: nat)
    requires 0 <= i <= maxIndex
    ensures Advance(i, maxIndex, maxIndex + 1) == i
  {
    AdvanceClimbs(i, maxIndex, maxIndex - i);
    assert Advance(i, maxIndex, maxIndex - i + 1) == 0;
    AdvanceClimbs(0, maxIndex, i);
    AdvanceAdd(i, maxIndex, maxIndex - i + 1, i);
  }

  /** An index left past the end, after the window got wider, returns to
      the first position on the next move forward. */
  lemma NextRecovers(i: int, maxIndex: nat)
    requires i > maxIndex
    ensures NextIndex(i, maxIndex) == 0
  {
  }

  class Carousel {
    const count: nat
    const itemsPerView: int
    var currentIndex: int
    var visibleItems: int
    var isAnimating: bool
    var isPaused: bool

    function MaxIndex(): nat
      reads this
    {
      MaxIndexFor(count, visibleItems)
    }

    /** Arrows and dots are shown only when some cards are hidden. */
    predicate ShowsControls()
      reads this
    {
      count > visibleItems
    }

    /** The six-second auto-advance runs only while controls are shown and
        the mouse is not over the carousel. */
    predicate AutoAdvances()
      reads this
    {
      count > visibleItems && !isPaused
    }

    /** One dot per position. */
    function DotCount(): (r: nat)
      reads this
      ensures r == MaxIndex() + 1
    {
      MaxIndex() + 1
    }

    /** The controls show exactly when there is a second position to move
        to, that is when there is more than one dot. */
    lemma ControlsIffMovable()
      ensures ShowsControls() <==> MaxIndex() > 0
      ensures ShowsControls() <==> DotCount() > 1
    {
    }

    /** The auto-advance runs exactly when the controls show and the mouse
        is not over the carousel. */
    lemma AutoAdvanceIff()
      ensures AutoAdvances() <==> ShowsControls() && !isPaused
      ensures AutoAdvances() ==> MaxIndex() > 0
    {
      ControlsIffMovable();
    }

    /** The counter's "shown up to" number: `min(currentIndex + visibleItems, length)`. */
    function CounterEnd(): (r: int)
      reads this
      ensures r <= count && r <= currentIndex + visibleItems
      ensures r == count || r == currentIndex + visibleItems
    {
      if currentIndex + visibleItems < count then currentIndex + visibleItems else count
    }

    /** The mount: index 0, `itemsPerView` cards, then the first resize. */
    constructor(count: nat, itemsPerView: int, width: int)
      ensures this.count == count && this.itemsPerView == itemsPerView
      ensures currentIndex == 0 && visibleItems == VisibleFor(width, itemsPerView)
      ensures !isAnimating && !isPaused
    {
      this.count := count;
      this.itemsPerView := itemsPerView;
      currentIndex := 0;
      visibleItems := VisibleFor(width, itemsPerView);
      isAnimating := false;
      isPaused := false;
    }

    /** A resize changes how many cards show and leaves the index alone. */
    method HandleResize(width: int)
      modifies this
      ensures visibleItems == VisibleFor(width, itemsPerView)
      ensures currentIndex == old(currentIndex) && isAnimating == old(isAnimating) && isPaused == old(isPaused)
    {
      visibleItems := VisibleFor(width, itemsPerView);
    }

    /** `nextSlide`: no effect while animating; otherwise move forward with
        wrap-around and lock. */
    method NextSlide()
      modifies this
      ensures old(isAnimating) ==> currentIndex == old(currentIndex) && isAnimating
      ensures !old(isAnimating) ==> currentIndex == NextIndex(old(currentIndex), old(MaxIndex())) && isAnimating
      ensures visibleItems == old(visibleItems) && isPaused == old(isPaused)
    {
      if isAnimating {
        return;
      }
      isAnimating := true;
      currentIndex := NextIndex(currentIndex, MaxIndex());
    }

    /** `prevSlide`: no effect while animating; otherwise move back with
        wrap-around and lock. */
    method PrevSlide()
      modifies this
      ensures old(isAnimating) ==> currentIndex == old(currentIndex) && isAnimating
      ensures !old(isAnimating) ==> currentIndex == PrevIndex(old(currentIndex), old(MaxIndex())) && isAnimating
      ensures visibleItems == old(visibleItems) && isPaused == old(isPaused)
    {
      if isAnimating {
        return;
      }
      isAnimating := true;
      currentIndex := PrevIndex(currentIndex, MaxIndex());
    }

    /** `goToSlide`: no effect while animating or when already there. */
    method GoToSlide(index: int)
      modifies this
      ensures old(isAnimating) || index == old(currentIndex) ==>
                currentIndex == old(currentIndex) && isAnimating == old(isAnimating)
      ensures !old(isAnimating) && index != old(currentIndex) ==> currentIndex == index && isAnimating
      ensures visibleItems == old(visibleItems) && isPaused == old(isPaused)
    {
      if isAnimating || index == currentIndex {
        return;
      }
      isAnimating := true;
      currentIndex := index;
    }

    /** The 500 ms timer releasing the lock. */
    method AnimationDone()
      modifies this
      ensures !isAnimating
      ensures currentIndex == old(currentIndex) && visibleItems == old(visibleItems) && isPaused == old(isPaused)
    {
      isAnimating := false;
    }

    /** `onMouseEnter` / `onMouseLeave`. */
    method SetPaused(paused: bool)
      modifies this
      ensures isPaused == paused
      ensures currentIndex == old(currentIndex) && visibleItems == old(visibleItems) && isAnimating == old(isAnimating)
      ensures AutoAdvances() <==> !paused && ShowsControls()
    {
      isPaused := paused;
    }
  }

  /** With the lock released in between, a move forward and a move back
      leave the carousel where it was. */
  method NextThenPrev(c: Carousel)
    requires !c.isAnimating && 0 <= c.currentIndex <= c.MaxIndex()
    modifies c
    ensures c.currentIndex == old(c.currentIndex) && c.isAnimating
  {
    ghost var start := c.currentIndex;
    c.NextSlide();
    c.AnimationDone();
    c.PrevSlide();
    MovesInverse(start, c.MaxIndex());
  }
}
