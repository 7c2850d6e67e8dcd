/**
 * The fixed navigation bar: a `scrolled` style past 60 pixels, the section
 * currently in view (found by scanning the sections from the bottom up), the
 * mobile menu's open flag, and in-page navigation by anchor.
 */
module Navbar {
  import opened Wrappers
  import opened JsText
  import Dom

  datatype NavLink = NavLink(caption: string, href: string)

  /** The links of the bar, in display order. */
  function NavLinks(): seq<NavLink>
  {
    [ NavLink("Home", "#hero"), NavLink("About", "#about"),
      NavLink("Portfolio", "#portfolio"), NavLink("Philosophy", "#philosophy"),
      NavLink("Skills", "#skills"), NavLink("Contact", "#contact") ]
  }

  /** The section id a link points at: `link.href.replace('#', '')`. */
  function SectionOf(link: NavLink): string
  {
    RemoveFirst(link.href, '#')
  }

  /** `navLinks.map(l => l.href.replace('#', ''))`. */
  function SectionIds(): (ids: seq<string>)
    ensures |ids| == |NavLinks()|
    ensures forall i :: 0 <= i < |ids| ==> ids[i] == SectionOf(NavLinks()[i])
  {
    seq(|NavLinks()|, i requires 0 <= i < |NavLinks()| => SectionOf(NavLinks()[i]))
  }

  /** The section ids are the hrefs without their `#`, in list order. */
  lemma SectionIdsValue()
    ensures SectionIds() == ["hero", "about", "portfolio", "philosophy", "skills", "contact"]
  {
    var ids := ["hero", "about", "portfolio", "philosophy", "skills", "contact"];
    forall i | 0 <= i < 6
      ensures SectionIds()[i] == ids[i]
    {
      assert NavLinks()[i].href == "#" + ids[i];
      RemoveFirstOfPrefixed('#', ids[i]);
    }
  }

  /** Putting the `#` back in front of each section id gives the link's href. */
  lemma SectionIdsRoundTrip()
    ensures forall i :: 0 <= i < |SectionIds()| ==> "#" + SectionIds()[i] == NavLinks()[i].href
  {
    SectionIdsValue();
  }

  /** The `scrolled` style applies strictly past 60 pixels. */
  predicate Scrolled(scrollY: int)
  {
    scrollY > 60
  }

  /**
   * `el && window.scrollY >= el.offsetTop - 120`: a section counts as reached
   * when its element exists (`offsetTop` is Some) and its top, less 120
   * pixels of header allowance, is at or above the scroll position.
   */
  predicate Reached(scrollY: int, offsetTop: Option<int>)
  {
    offsetTop.Some? && scrollY >= offsetTop.value - 120
  }

  /** The highest-index reached section, if any. */
  function LastReached(scrollY: int, offsets: seq<Option<int>>): (r: Option<nat>)
    ensures r.Some? ==> r.value < |offsets| && Reached(scrollY, offsets[r.value])
    ensures r.Some? ==> forall j :: r.value < j < |offsets| ==> !Reached(scrollY, offsets[j])
    ensures r.None? <==> forall j :: 0 <= j < |offsets| ==> !Reached(scrollY, offsets[j])
  {
    if offsets == [] then None
    else if Reached(scrollY, offsets[|offsets| - 1]) then Some(|offsets| - 1)
    else LastReached(scrollY, offsets[..|offsets| - 1])
  }

  /** `className={... activeSection === link.href.replace('#', '') ? 'active' : ''}`. */
  predicate IsActiveLink(link: NavLink, activeSection: string)
  {
    SectionOf(link) == activeSection
  }

  /** Since the hrefs are distinct, at most one link is marked active. */
  lemma AtMostOneActive(activeSection: string, i: nat, j: nat)
    requires i < |NavLinks()| && j < |NavLinks()|
    requires IsActiveLink(NavLinks()[i], activeSection)
    requires IsActiveLink(NavLinks()[j], activeSection)
    ensures i == j
  {
    SectionIdsValue();
    assert SectionIds()[i] == SectionIds()[j];
  }

  /** Exactly the link of the active section is marked, when it is a section of the bar. */
  lemma ActiveLinkOfSection(k: nat)
    requires k < |NavLinks()|
    ensures IsActiveLink(NavLinks()[k], SectionIds()[k])
    ensures forall j :: 0 <= j < |NavLinks()| && j != k ==> !IsActiveLink(NavLinks()[j], SectionIds()[k])
  {
    forall j | 0 <= j < |NavLinks()| && j != k
      ensures !IsActiveLink(NavLinks()[j], SectionIds()[k])
    {
      if IsActiveLink(NavLinks()[j], SectionIds()[k]) {
        AtMostOneActive(SectionIds()[k], j, k);
      }
    }
  }

  class NavbarState {
    var scrolled: bool
    var menuOpen: bool
    var activeSection: string

    ghost predicate Valid()
      reads this
    {
      activeSection in SectionIds()
    }

    /** `useState(false)`, `useState(false)`, `useState('hero')`. */
    constructor ()
      ensures Valid()
      ensures !scrolled && !menuOpen && activeSection == "hero"
    {
      scrolled, menuOpen, activeSection := false, false, "hero";
      SectionIdsValue();
    }

    /**
     * `handleScroll`: `offsets[i]` is the `offsetTop` of the element with id
     * `SectionIds()[i]`, or None when the page has no such element. The scan
     * runs from the last section down and stops at the first reached one;
     * when none is reached the active section keeps its previous value.
     */
    method HandleScroll(scrollY: int, offsets: seq<Option<int>>)
      requires Valid()
      requires |offsets| == |SectionIds()|
      modifies this
      ensures Valid()
      ensures scrolled == Scrolled(scrollY) && menuOpen == old(menuOpen)
      ensures match LastReached(scrollY, offsets)
              case Some(k) => activeSection == SectionIds()[k]
              case None => activeSection == old(activeSection)
    {
      scrolled := Scrolled(scrollY);
      var sections := SectionIds();
      var i := |sections| - 1;
      while i >= 0
        invariant -1 <= i < |sections|
        invariant forall j :: i < j < |sections| ==> !Reached(scrollY, offsets[j])
        invariant activeSection == old(activeSection)
      {
        if Reached(scrollY, offsets[i]) {
          activeSection := sections[i];
          break;
        }
        i := i - 1;
      }
    }

    /** `handleNavClick(href)`: the menu always closes; the page scrolls only to an existing target. */
    method HandleNavClick(page: Dom.Page, href: string) returns (target: Option<string>)
      requires href in Anchors()
      modifies this
      ensures !menuOpen
      ensures scrolled == old(scrolled) && activeSection == old(activeSection)
      ensures target == Dom.ScrollToAnchor(page, href)
    {
      menuOpen := false;
      target := Dom.ScrollToAnchor(page, href);
    }

    /** The hamburger button: `setMenuOpen(!menuOpen)`. */
    method ToggleMenu()
      modifies this
      ensures menuOpen == !old(menuOpen)
      ensures scrolled == old(scrolled) && activeSection == old(activeSection)
    {
      menuOpen := !menuOpen;
    }
  }

  /** The hrefs the bar navigates to: its links, the logo (`#hero`) and the call to action (`#contact`). */
  function Anchors(): (hrefs: set<string>)
    ensures forall h :: h in hrefs ==> Dom.IsIdSelector(h)
  {
    set i | 0 <= i < |NavLinks()| :: NavLinks()[i].href
  }

  /** Two presses of the hamburger restore the menu's state. */
  method ToggleTwiceRestores(nav: NavbarState)
    modifies nav
    ensures nav.menuOpen == old(nav.menuOpen)
  {
    nav.ToggleMenu();
    nav.ToggleMenu();
  }
}
