/**
 * The autoscrolling testimonial carousel of step 3 (`StepTestimonials`).
 * Once per animation frame `scroll` moves the container's horizontal
 * offset on by one unit unless the pointer is over the carousel; when the
 * moved offset reaches a third of the scroll width (the width of one copy
 * of the tripled card list) it is put back to exactly 1.
 *
 * The source's guard `scrollLeft >= scrollWidth / 3` is written here as
 * `3 * offset >= scrollWidth`, which is the same comparison without division.
 */
module Carousel {

  /** The offset after one frame of `scroll`. */
  function TickOffset(offset: int, paused: bool, scrollWidth: int): int {
    if paused then offset
    else if 3 * (offset + 1) >= scrollWidth then 1
    else offset + 1
  }

  /** The offset after `n` frames with the pause flag held fixed. */
  function Ticks(offset: int, paused: bool, scrollWidth: int, n: nat): int
    decreases n
  {
    if n == 0 then offset else TickOffset(Ticks(offset, paused, scrollWidth, n - 1), paused, scrollWidth)
  }

  /** The offset lies inside the first copy of the card list. */
  predicate InFirstCopy(offset: int, scrollWidth: int) {
    0 <= offset && 3 * offset < scrollWidth
  }

  /** Frames can be split: `a + b` frames are `a` frames followed by `b` frames. */
  lemma {:induction false} TicksSplit(offset: int, paused: bool, scrollWidth: int, a: nat, b: nat)
    ensures Ticks(offset, paused, scrollWidth, a + b) == Ticks(Ticks(offset, paused, scrollWidth, a), paused, scrollWidth, b)
  {
    if b > 0 {
      TicksSplit(offset, paused, scrollWidth, a, b - 1);
    }
  }

  /** While paused, any number of frames leaves the offset where it was. */
  lemma {:induction false} PausedFreezes(offset: int, scrollWidth: int, n: nat)
    ensures Ticks(offset, true, scrollWidth, n) == offset
  {
    if n > 0 {
      PausedFreezes(offset, scrollWidth, n - 1);
    }
  }

  /** After a pause of any length, scrolling resumes from the frozen offset, with no jump. */
  lemma {:induction false} ResumeAfterPause(offset: int, scrollWidth: int, k: nat, n: nat)
    ensures Ticks(Ticks(offset, true, scrollWidth, k), false, scrollWidth, n) == Ticks(offset, false, scrollWidth, n)
  {
    PausedFreezes(offset, scrollWidth, k);
  }

  /**
   * Before the boundary of the first copy is reached, each unpaused frame
   * moves the offset on by exactly one: no reset happens early.
   */
  lemma {:induction false} AdvancesUntilBoundary(offset: int, scrollWidth: int, n: nat)
    requires 3 * (offset + n) < scrollWidth
    ensures Ticks(offset, false, scrollWidth, n) == offset + n
  {
    if n > 0 {
      AdvancesUntilBoundary(offset, scrollWidth, n - 1);
    }
  }

  /**
   * One unpaused frame from any non-negative offset lands inside the first
   * copy and at 1 or beyond, provided one copy is wider than one unit: an
   * offset that has overshot the boundary is corrected in a single frame.
   */
  lemma TickLandsInFirstCopy(offset: int, scrollWidth: int)
    requires 3 < scrollWidth && 0 <= offset
    ensures InFirstCopy(TickOffset(offset, false, scrollWidth), scrollWidth)
    ensures 1 <= TickOffset(offset, false, scrollWidth)
  {
  }

  /**
   * Starting anywhere at or past 0, any positive number of unpaused frames
   * keeps the offset in [1, scrollWidth / 3).
   */
  lemma {:induction false} StaysInFirstCopy(offset: int, scrollWidth: int, n: nat)
    requires 3 < scrollWidth && 0 <= offset
    ensures n > 0 ==> 1 <= Ticks(offset, false, scrollWidth, n) && InFirstCopy(Ticks(offset, false, scrollWidth, n), scrollWidth)
  {
    if n > 0 {
      StaysInFirstCopy(offset, scrollWidth, n - 1);
      TickLandsInFirstCopy(Ticks(offset, false, scrollWidth, n - 1), scrollWidth);
    }
  }

  /** The number of distinct offsets the running carousel cycles through: 1, 2, ..., Period(w). */
  function Period(scrollWidth: int): int {
    (scrollWidth - 1) / 3
  }

  /**
   * Started at the reset value 1, the unpaused carousel comes back to 1
   * after exactly `Period` frames and not before, and from then on repeats
   * itself with that period.
   */
  lemma CycleFromReset(scrollWidth: int, n: nat)
    requires 3 < scrollWidth
    ensures Period(scrollWidth) >= 1
    ensures Ticks(1, false, scrollWidth, Period(scrollWidth)) == 1
    ensures forall k :: 0 < k < Period(scrollWidth) ==> Ticks(1, false, scrollWidth, k) == 1 + k
    ensures Ticks(1, false, scrollWidth, Period(scrollWidth) + n) == Ticks(1, false, scrollWidth, n)
  {
    var m := Period(scrollWidth);
    assert 3 * m <= scrollWidth - 1 < 3 * m + 3;
    AdvancesUntilBoundary(1, scrollWidth, m - 1);
    assert Ticks(1, false, scrollWidth, m) == TickOffset(m, false, scrollWidth);
    forall k | 0 < k < m
      ensures Ticks(1, false, scrollWidth, k) == 1 + k
    {
      AdvancesUntilBoundary(1, scrollWidth, k);
    }
    TicksSplit(1, false, scrollWidth, m, n);
  }

  /** The scroll container with its offset (`scrollLeft`) and the pause flag (`isPaused`). */
  class CarouselDriver {
    var offset: int
    var paused: bool
    var scrollWidth: int

    /** The offset is inside the first copy and one copy is wider than one unit. */
    ghost predicate Valid()
      reads this
    {
      3 < scrollWidth && InFirstCopy(offset, scrollWidth)
    }

    /** A freshly laid out container: not scrolled and not paused. */
    constructor (scrollWidth: int)
      ensures this.scrollWidth == scrollWidth && offset == 0 && !paused
      ensures 3 < scrollWidth ==> Valid()
    {
      this.scrollWidth := scrollWidth;
      offset := 0;
      paused := false;
    }

    /** Pointer enters the carousel. */
    method MouseEnter()
      modifies this`paused
      ensures paused
    {
      paused := true;
    }

    /** Pointer leaves the carousel. */
    method MouseLeave()
      modifies this`paused
      ensures !paused
    {
      paused := false;
    }

    /**
     * A layout change (the cards switch width at a breakpoint): the scroll
     * width changes and the offset stays where it was, possibly beyond the
     * new first copy until the next unpaused frame.
     */
    method Resize(newWidth: int)
      modifies this`scrollWidth
      ensures scrollWidth == newWidth
    {
      scrollWidth := newWidth;
    }

    /** One frame of `scroll`. */
    method Tick()
      modifies this`offset
      ensures offset == TickOffset(old(offset), paused, scrollWidth)
      ensures paused ==> offset == old(offset)
      ensures old(Valid()) ==> Valid()
      ensures !paused && 3 < scrollWidth && 0 <= old(offset) ==> Valid()
    {
      if !paused {
        offset := offset + 1;
        if 3 * offset >= scrollWidth {
          offset := 1;
        }
      }
    }

    /** `n` animation frames in a row, with the pointer neither entering nor leaving. */
    method RunFrames(n: nat)
      modifies this`offset
      ensures offset == Ticks(old(offset), paused, scrollWidth, n)
      ensures old(Valid()) ==> Valid()
    {
      var i := 0;
      while i < n
        invariant 0 <= i <= n
        invariant offset == Ticks(old(offset), paused, scrollWidth, i)
        invariant old(Valid()) ==> Valid()
      {
        Tick();
        i := i + 1;
      }
    }
  }
}
