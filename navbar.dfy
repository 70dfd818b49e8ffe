/** The site header (app/components/Navbar.tsx): the scroll listener that hides
    the bar when scrolling down past 80 px and makes it solid past 20 px, and
    the choice between the active pill and a plain or external link. */
module Navbar {
  const HideAfter: real := 80.0
  const SolidAfter: real := 20.0

  datatype ScrollState = ScrollState(hidden: bool, scrolled: bool, lastY: real)

  const InitialScroll := ScrollState(false, false, 0.0)

  /** One "scroll" event at `y`. */
  function Step(s: ScrollState, y: real): (r: ScrollState)
    ensures r.hidden <==> y > HideAfter && y > s.lastY
    ensures r.scrolled <==> y > SolidAfter
    ensures r.lastY == y
    ensures r.hidden ==> r.scrolled
  {
    ScrollState(y > HideAfter && y > s.lastY, y > SolidAfter, y)
  }

  /** The state after a run of scroll events. */
  function Replay(s: ScrollState, ys: seq<real>): ScrollState
    decreases |ys|
  {
    if ys == [] then s else Replay(Step(s, ys[0]), ys[1..])
  }

  /** The bar's state never depends on more than the last two positions:
      after a non-empty run, `hidden` compares the last position with the one
      before it (or the starting `lastY`), and `scrolled` and `lastY` read the
      last position alone. */
  lemma {:induction false} ReplayRemembersTwo(s: ScrollState, ys: seq<real>)
    requires ys != []
    ensures var r := Replay(s, ys);
            var last := ys[|ys| - 1];
            var before := if |ys| == 1 then s.lastY else ys[|ys| - 2];
            && (r.hidden <==> last > HideAfter && last > before)
            && (r.scrolled <==> last > SolidAfter)
            && r.lastY == last
    decreases |ys|
  {
    if |ys| > 1 {
      ReplayRemembersTwo(Step(s, ys[0]), ys[1..]);
      assert ys[1..][|ys[1..]| - 1] == ys[|ys| - 1];
      if |ys| > 2 {
        assert ys[1..][|ys[1..]| - 2] == ys[|ys| - 2];
      }
    }
  }

  /** Scrolling up, or staying put, never hides the bar. */
  lemma ScrollingUpShows(s: ScrollState, y: real)
    requires y <= s.lastY
    ensures !Step(s, y).hidden
  {
  }

  class NavbarState {
    var hidden: bool
    var scrolled: bool
    var lastY: real  // the ref, not rendered

    function State(): ScrollState
      reads this
    {
      ScrollState(hidden, scrolled, lastY)
    }

    ghost predicate Valid()
      reads this
    {
      hidden ==> scrolled
    }

    constructor ()
      ensures Valid() && State() == InitialScroll
    {
      hidden, scrolled, lastY := false, false, 0.0;
    }

    /** `onScroll` */
    method OnScroll(y: real)
      requires Valid()
      modifies this
      ensures Valid() && State() == Step(old(State()), y)
    {
      hidden := y > HideAfter && y > lastY;
      scrolled := y > SolidAfter;
      lastY := y;
    }
  }

  datatype NavLink = NavLink(href: string, name: string, external: bool)

  const NavLinks: seq<NavLink> := [
    NavLink("/", "Home", false),
    NavLink("/about", "About", false),
    NavLink(ResumeHref, "Resume", true)]

  const ResumeHref := "https://" + "drive.google.com/file/d/1o3aoi75Vq-jUWOF2IbnwHKigzYjHEDl3/view?usp=sharing"

  datatype LinkView =
    | ActivePill(href: string, name: string)
    | PlainLink(href: string, name: string, target: string, rel: string, externalIcon: bool)

  /** How one link renders on `pathname`; an empty target or rel is an absent attribute. */
  function ViewOf(link: NavLink, pathname: string): (v: LinkView)
    ensures v.ActivePill? <==> pathname == link.href
    ensures v.href == link.href && v.name == link.name
    ensures v.PlainLink? ==>
              && (v.target == "_blank" <==> link.external)
              && (v.rel == "noopener noreferrer" <==> link.external)
              && (v.target == "" <==> !link.external)
              && (v.rel == "" <==> !link.external)
              && (v.externalIcon <==> link.external)
  {
    if pathname == link.href then ActivePill(link.href, link.name)
    else if link.external then PlainLink(link.href, link.name, "_blank", "noopener noreferrer", true)
    else PlainLink(link.href, link.name, "", "", false)
  }

  /** At most one of the header's links is highlighted, whatever the path. */
  lemma AtMostOneActive(pathname: string, i: int, j: int)
    requires 0 <= i < |NavLinks| && 0 <= j < |NavLinks|
    requires ViewOf(NavLinks[i], pathname).ActivePill? && ViewOf(NavLinks[j], pathname).ActivePill?
    ensures i == j
  {
  }

  /** On any site path the resume link opens in a new tab without an opener. */
  lemma ResumeOpensNewTab(pathname: string)
    requires |pathname| > 0 && pathname[0] == '/'
    ensures ViewOf(NavLinks[2], pathname) == PlainLink(ResumeHref, "Resume", "_blank", "noopener noreferrer", true)
  {
    assert ResumeHref[0] == 'h';
  }
}
