/** The Walmart comparison case study (app/projects/walmart-genai-comparison/page.tsx):
    the `activeCard` index the interval advances (the page never renders it),
    and the arrow flags of its two carousels. */
module WalmartCaseStudy {
  import opened Wrappers
  import Carousel

  datatype Competitor = Competitor(src: string, name: string)

  const CompetitorCards: seq<Competitor> := [
    Competitor("/projects/competitors/rei.png", "REI"),
    Competitor("/projects/competitors/bestbuy.png", "Best Buy"),
    Competitor("/projects/competitors/staples.png", "Staples"),
    Competitor("/projects/competitors/target.png", "Target"),
    Competitor("/projects/competitors/lululemon.png", "lululemon"),
    Competitor("/projects/competitors/amazon.png", "Amazon"),
    Competitor("/projects/competitors/flipkart.png", "flipkart")]

  /** `(prev + 1) % competitorCards.length` */
  function NextCard(i: int): (r: int)
    requires 0 <= i < |CompetitorCards|
    ensures 0 <= r < |CompetitorCards|
    ensures r == (if i == |CompetitorCards| - 1 then 0 else i + 1)
  {
    (i + 1) % |CompetitorCards|
  }

  /** The active card after `k` ticks. */
  function AfterTicks(i: int, k: nat): (r: int)
    requires 0 <= i < |CompetitorCards|
    ensures 0 <= r < |CompetitorCards|
  {
    if k == 0 then i else NextCard(AfterTicks(i, k - 1))
  }

  /** The ticks rotate through the seven cards: after k ticks card (i + k) mod 7 is active. */
  lemma {:induction false} AfterTicksIsRotation(i: int, k: nat)
    requires 0 <= i < |CompetitorCards|
    ensures AfterTicks(i, k) == (i + k) % |CompetitorCards|
  {
    if k > 0 {
      AfterTicksIsRotation(i, k - 1);
      CardCount();
      var prev := (i + k - 1) % 7;
      assert (i + k) % 7 == if prev == 6 then 0 else prev + 1;
    }
  }

  /** The page lists seven competitors. */
  lemma CardCount()
    ensures |CompetitorCards| == 7
  {
  }

  datatype PageArrows = PageArrows(compLeft: bool, compRight: bool, resLeft: bool, resRight: bool)

  class CaseStudyPage {
    var activeCard: int
    var paused: bool
    var intervalRunning: bool  // the interval installed by the `[paused]` effect
    var canScrollCompLeft: bool
    var canScrollCompRight: bool
    var canScrollResLeft: bool
    var canScrollResRight: bool

    ghost predicate Valid()
      reads this
    {
      0 <= activeCard < |CompetitorCards| && (intervalRunning <==> !paused)
    }

    /** Mount: the first card, not paused, the interval installed, and both
        carousels unmeasured (no left arrow, a right arrow). */
    constructor ()
      ensures Valid() && activeCard == 0 && !paused && intervalRunning
      ensures !canScrollCompLeft && canScrollCompRight && !canScrollResLeft && canScrollResRight
    {
      activeCard, paused, intervalRunning := 0, false, true;
      canScrollCompLeft, canScrollCompRight := false, true;
      canScrollResLeft, canScrollResRight := false, true;
    }

    /** A change of `paused` re-runs the effect: the old interval is cleared and
        a new one is installed only when not paused. */
    method SetPaused(p: bool)
      requires Valid()
      modifies this`paused, this`intervalRunning
      ensures Valid() && paused == p
    {
      paused := p;
      intervalRunning := !p;
    }

    /** An interval tick; while paused there is no interval and nothing changes. */
    method IntervalTick()
      requires Valid()
      modifies this`activeCard
      ensures Valid()
      ensures !paused ==> activeCard == NextCard(old(activeCard))
      ensures paused ==> activeCard == old(activeCard)
    {
      if intervalRunning {
        activeCard := (activeCard + 1) % |CompetitorCards|;
      }
    }

    /** `updateCompArrows` */
    method UpdateCompArrows(el: Option<Carousel.ScrollMetrics>)
      modifies this`canScrollCompLeft, this`canScrollCompRight
      ensures el.None? ==> canScrollCompLeft == old(canScrollCompLeft) && canScrollCompRight == old(canScrollCompRight)
      ensures el.Some? ==>
                && (canScrollCompLeft <==> Carousel.CanScrollLeft(el.value))
                && (canScrollCompRight <==> Carousel.CanScrollRight(el.value))
    {
      if el.Some? {
        canScrollCompLeft := Carousel.CanScrollLeft(el.value);
        canScrollCompRight := Carousel.CanScrollRight(el.value);
      }
    }

    /** `updateResArrows` */
    method UpdateResArrows(el: Option<Carousel.ScrollMetrics>)
      modifies this`canScrollResLeft, this`canScrollResRight
      ensures el.None? ==> canScrollResLeft == old(canScrollResLeft) && canScrollResRight == old(canScrollResRight)
      ensures el.Some? ==>
                && (canScrollResLeft <==> Carousel.CanScrollLeft(el.value))
                && (canScrollResRight <==> Carousel.CanScrollRight(el.value))
    {
      if el.Some? {
        canScrollResLeft := Carousel.CanScrollLeft(el.value);
        canScrollResRight := Carousel.CanScrollRight(el.value);
      }
    }

    /** The arrow buttons rendered. Three follow their flags; the research
        carousel's right arrow is rendered whatever its flag says. */
    function Rendered(): (a: PageArrows)
      reads this
      ensures a.compLeft <==> canScrollCompLeft
      ensures a.compRight <==> canScrollCompRight
      ensures a.resLeft <==> canScrollResLeft
      ensures a.resRight
    {
      PageArrows(canScrollCompLeft, canScrollCompRight, canScrollResLeft, true)
    }
  }

  /** The page's two horizontal strips. */
  datatype Strip = Comparison | Research

  /** A click on one of the four arrow buttons: it scrolls its own strip as the
      highlights carousel's arrows do, and does nothing once that strip's
      element is gone. The other strip is never consulted. */
  function ArrowClick(strip: Strip, dir: Carousel.Direction,
                      comparison: Option<Carousel.ScrollMetrics>,
                      research: Option<Carousel.ScrollMetrics>): (r: Option<real>)
    ensures var el := if strip == Comparison then comparison else research;
            && (r.Some? <==> el.Some?)
            && (r.Some? ==> r.value == (if dir == Carousel.Left then -0.6 else 0.6) * el.value.clientWidth as real)
  {
    Carousel.ScrollDelta(dir, if strip == Comparison then comparison else research)
  }

  /** At the end of the research carousel its right arrow is still on screen,
      although its flag is off, while the comparison carousel's goes away. */
  method ScrolledToTheEnd(m: Carousel.ScrollMetrics) returns (a: PageArrows)
    requires m.scrollLeft >= (m.scrollWidth - m.clientWidth - Carousel.EdgeSlack) as real
    ensures !a.compRight && a.resRight
  {
    var page := new CaseStudyPage();
    page.UpdateCompArrows(Some(m));
    page.UpdateResArrows(Some(m));
    a := page.Rendered();
  }

  /** With nothing ever pausing it, the interval visits every card within seven ticks. */
  lemma EveryCardComesRound(j: int)
    requires 0 <= j < |CompetitorCards|
    ensures AfterTicks(0, j) == j
  {
    AfterTicksIsRotation(0, j);
  }
}
