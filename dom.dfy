/**
 * The document, reduced to what the navigation handlers ask of it: which
 * element ids exist. `document.querySelector('#id')` finds the element with
 * that id or returns `null`, and an element found can be scrolled into view.
 */
module Dom {
  import opened Wrappers

  /** The ids of the elements present in the page. */
  type Page = set<string>

  /** An id selector `#name` with a non-empty name and no second `#`. */
  predicate IsIdSelector(sel: string)
  {
    |sel| >= 2 && sel[0] == '#' && '#' !in sel[1..]
  }

  /**
   * `const el = document.querySelector(href); if (el) el.scrollIntoView(...)`:
   * the id scrolled to, or None when nothing matches and nothing happens.
   */
  function ScrollToAnchor(page: Page, href: string): (target: Option<string>)
    requires IsIdSelector(href)
    ensures target.Some? ==> target.value in page && [href[0]] + target.value == href
    ensures target.None? <==> href[1..] !in page
  {
    if href[1..] in page then Some(href[1..]) else None
  }
}
