/** The public hero carousel (components/HeroCarousel.tsx): one index into a
    fixed list of slides, advanced by a timer and set by the dots. */
module HeroCarousel {
  import opened Sequences

  datatype SlideContent = SlideContent(title: string, description: string, image: string)

  /** The three slides the component renders. */
  const Slides: seq<SlideContent> := [
    SlideContent("Welcome to OSAKA Television", "Experience the best in visual entertainment", "/hero1.jpg"),
    SlideContent("Premium Quality TVs", "From 24 to 65 - Find your perfect size", "/hero2.jpg"),
    SlideContent("Smart TV Technology", "Google TV and Smart features available", "/hero3.jpg")
  ]

  /** The timer step `(prev + 1) % slides.length`: from an index in range it
      moves to the next index, and from the last index back to 0. */
  function NextIndex(i: nat, n: nat): (r: nat)
    requires n > 0
    ensures r < n
    ensures i + 1 < n ==> r == i + 1
    ensures i + 1 == n ==> r == 0
  {
    (i + 1) % n
  }

  /** The index after `k` timer ticks from `i`. */
  function AfterTicks(i: nat, n: nat, k: nat): (r: nat)
    requires n > 0
    decreases k
  {
    if k == 0 then i else NextIndex(AfterTicks(i, n, k - 1), n)
  }

  lemma AfterTicksInRange(i: nat, n: nat, k: nat)
    requires i < n
    ensures AfterTicks(i, n, k) < n
  {
  }

  /** Ticks compose: `a` ticks and then `b` more are `a + b` ticks. */
  lemma {:induction false} AfterTicksAdd(i: nat, n: nat, a: nat, b: nat)
    requires n > 0
    ensures AfterTicks(AfterTicks(i, n, a), n, b) == AfterTicks(i, n, a + b)
    decreases b
  {
    if b > 0 {
      AfterTicksAdd(i, n, a, b - 1);
    }
  }

  /** Before the wrap, each tick moves one slide forward. */
  lemma {:induction false} AfterTicksBeforeWrap(i: nat, n: nat, k: nat)
    requires i + k < n
    ensures AfterTicks(i, n, k) == i + k
    decreases k
  {
    if k > 0 {
      AfterTicksBeforeWrap(i, n, k - 1);
    }
  }

  /** `slides.length` consecutive ticks come back to the index they started from. */
  lemma FullCycle(i: nat, n: nat)
    requires i < n
    ensures AfterTicks(i, n, n) == i
  {
    AfterTicksBeforeWrap(i, n, n - 1 - i);
    assert AfterTicks(i, n, n - i) == 0;
    AfterTicksBeforeWrap(0, n, i);
    AfterTicksAdd(i, n, n - i, i);
  }

  /** For each slide (and each dot), whether `index === currentSlide`: that slide
      gets `opacity-100` and that dot `bg-red-600`. */
  function SelectedFlags(n: nat, current: nat): (f: seq<bool>)
    ensures |f| == n
    ensures forall i :: 0 <= i < n ==> (f[i] <==> i == current)
  {
    seq(n, i => i == current)
  }

  predicate IsOn(b: bool) {
    b
  }

  lemma {:induction false} NoneOn(f: seq<bool>)
    requires forall i :: 0 <= i < |f| ==> !f[i]
    ensures Filter(f, IsOn) == []
  {
    if f != [] {
      NoneOn(f[1..]);
    }
  }

  lemma {:induction false} SingleOn(f: seq<bool>, c: nat)
    requires c < |f|
    requires forall i :: 0 <= i < |f| ==> (f[i] <==> i == c)
    ensures |Filter(f, IsOn)| == 1
    decreases c
  {
    if c == 0 {
      NoneOn(f[1..]);
    } else {
      SingleOn(f[1..], c - 1);
    }
  }

  /** With the index in range, exactly one slide is visible and exactly one dot
      highlighted, and it is the one at the index. */
  lemma ExactlyOneSelected(n: nat, current: nat)
    requires current < n
    ensures |Filter(SelectedFlags(n, current), IsOn)| == 1
    ensures SelectedFlags(n, current)[current]
  {
    SingleOn(SelectedFlags(n, current), current);
  }

  class Carousel {
    var currentSlide: nat

    ghost predicate Valid()
      reads this
    {
      currentSlide < |Slides|
    }

    constructor ()
      ensures Valid() && currentSlide == 0
    {
      currentSlide := 0;
    }

    /** The 5000 ms interval callback. */
    method Tick()
      requires Valid()
      modifies this
      ensures Valid()
      ensures currentSlide == NextIndex(old(currentSlide), |Slides|)
    {
      currentSlide := NextIndex(currentSlide, |Slides|);
    }

    /** A click on the dot of slide `index`; a dot exists only for each slide. */
    method SelectDot(index: nat)
      requires Valid() && index < |Slides|
      modifies this
      ensures Valid() && currentSlide == index
    {
      currentSlide := index;
    }

    /** The visibility of each slide as rendered now. */
    function Visibility(): (f: seq<bool>)
      reads this
      requires Valid()
      ensures |f| == |Slides| && |Filter(f, IsOn)| == 1 && f[currentSlide]
    {
      ExactlyOneSelected(|Slides|, currentSlide);
      SelectedFlags(|Slides|, currentSlide)
    }
  }
}
