/** The scroll arrows of a horizontal carousel (app/components/HighlightsCarousel.tsx):
    whether each arrow is shown, and which way a click scrolls. */
module Carousel {
  import opened Wrappers

  /** The slack, in pixels, before an arrow appears. */
  const EdgeSlack := 4

  /** An element's scroll metrics. `scrollLeft` is fractional on zoomed or
      high-density displays; `scrollWidth` and `clientWidth` are whole pixels. */
  datatype ScrollMetrics = ScrollMetrics(scrollLeft: real, scrollWidth: int, clientWidth: int)

  /** `el.scrollLeft > 4` */
  predicate CanScrollLeft(m: ScrollMetrics)
  {
    m.scrollLeft > EdgeSlack as real
  }

  /** `el.scrollLeft < el.scrollWidth - el.clientWidth - 4` */
  predicate CanScrollRight(m: ScrollMetrics)
  {
    m.scrollLeft < (m.scrollWidth - m.clientWidth - EdgeSlack) as real
  }

  /** Content that fits shows no arrow at all; content within 4 px of the
      start shows no left arrow, within 4 px of the end no right arrow. */
  lemma FittingContentHasNoArrows(m: ScrollMetrics)
    requires m.scrollLeft >= 0.0 && m.scrollWidth <= m.clientWidth
    ensures !CanScrollRight(m) && (m.scrollLeft <= EdgeSlack as real ==> !CanScrollLeft(m))
  {
  }

  /** Neither arrow is shown. */
  predicate NoArrow(m: ScrollMetrics)
  {
    !CanScrollLeft(m) && !CanScrollRight(m)
  }

  /** The slack leaves a dead zone: content overflowing its viewport can be
      scrolled to a position where neither arrow shows iff it overflows by at
      most twice the slack. Beyond that, some arrow is always on screen. */
  lemma {:induction false} ArrowsVanishOnlyNearTheFit(scrollWidth: int, clientWidth: int)
    requires scrollWidth >= clientWidth
    ensures (exists x: real :: 0.0 <= x <= (scrollWidth - clientWidth) as real && NoArrow(ScrollMetrics(x, scrollWidth, clientWidth)))
            <==> scrollWidth - clientWidth <= 2 * EdgeSlack
  {
    var overflow := scrollWidth - clientWidth;
    if overflow <= 2 * EdgeSlack {
      assert NoArrow(ScrollMetrics(overflow as real / 2.0, scrollWidth, clientWidth));
    }
  }

  datatype Direction = Left | Right

  /** `scrollBy` for a click, or None when the element is gone. */
  function ScrollDelta(dir: Direction, el: Option<ScrollMetrics>): (r: Option<real>)
    ensures r.Some? <==> el.Some?
    ensures r.Some? ==> r.value == (if dir == Left then -0.6 else 0.6) * el.value.clientWidth as real
  {
    match el
    case None => None
    case Some(m) =>
      var amount := m.clientWidth as real * 0.6;
      Some(if dir == Left then -amount else amount)
  }

  /** The two arrows scroll by the same amount in opposite directions, left
      being negative (for a non-empty viewport). */
  lemma ArrowsAreOpposite(m: ScrollMetrics)
    ensures ScrollDelta(Left, Some(m)).value == -ScrollDelta(Right, Some(m)).value
    ensures m.clientWidth > 0 ==> ScrollDelta(Left, Some(m)).value < 0.0 < ScrollDelta(Right, Some(m)).value
  {
  }

  datatype Arrows = Arrows(left: bool, right: bool)

  class ArrowFlags {
    var canScrollLeft: bool
    var canScrollRight: bool

    /** Before the first measurement: no left arrow, a right arrow. */
    constructor ()
      ensures !canScrollLeft && canScrollRight
    {
      canScrollLeft, canScrollRight := false, true;
    }

    /** `updateArrows`, from the mount effect, "scroll" or "resize". */
    method UpdateArrows(el: Option<ScrollMetrics>)
      modifies this
      ensures el.None? ==> canScrollLeft == old(canScrollLeft) && canScrollRight == old(canScrollRight)
      ensures el.Some? ==>
                && (canScrollLeft <==> CanScrollLeft(el.value))
                && (canScrollRight <==> CanScrollRight(el.value))
    {
      if el.None? {
        return;
      }
      canScrollLeft := CanScrollLeft(el.value);
      canScrollRight := CanScrollRight(el.value);
    }

    /** The buttons rendered: each exactly when its flag is set. */
    function Rendered(): (a: Arrows)
      reads this
      ensures a.left <==> canScrollLeft
      ensures a.right <==> canScrollRight
    {
      Arrows(canScrollLeft, canScrollRight)
    }
  }

  /** Mounting over content that fits removes the initial right arrow. */
  method MountOverFittingContent(m: ScrollMetrics) returns (shown: Arrows)
    requires 0.0 <= m.scrollLeft <= EdgeSlack as real && m.scrollWidth <= m.clientWidth
    ensures shown == Arrows(false, false)
  {
    var flags := new ArrowFlags();
    flags.UpdateArrows(Some(m));
    FittingContentHasNoArrows(m);
    shown := flags.Rendered();
  }
}
