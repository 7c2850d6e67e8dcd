/**
 * The footer's navigation column: one link per section anchor, labelled by
 * `href.replace('#', '').charAt(0).toUpperCase() + href.replace('#', '').slice(1)`,
 * and a click handler that scrolls to the anchor when it exists.
 */
module Footer {
  import opened Wrappers
  import opened JsText
  import Dom

  /** The six anchors listed in the footer, in display order. */
  function Anchors(): seq<string>
  {
    ["#hero", "#about", "#portfolio", "#philosophy", "#skills", "#contact"]
  }

  /** The text shown for the link to `href`. */
  function NavLabel(href: string): string
  {
    UpperFirst(RemoveFirst(href, '#'))
  }

  /** The labels of the footer links, in the order of `Anchors()`. */
  function Labels(): (labels: seq<string>)
    ensures |labels| == |Anchors()|
  {
    seq(|Anchors()|, i requires 0 <= i < |Anchors()| => NavLabel(Anchors()[i]))
  }

  /**
   * Only the first `#` is removed and only the first remaining character is
   * upper-cased: what comes before the `#` and everything after its first
   * character stays as it was.
   */
  lemma NavLabelShape(href: string)
    ensures var k := IndexOf(href, '#');
            var rest := if k < |href| then href[..k] + href[k + 1..] else href;
            NavLabel(href) == UpperFirst(rest)
  {
    RemoveFirstSplices(href, '#');
  }

  /** The label of `'#' + w` is `w` with its first character upper-cased. */
  lemma {:induction false} NavLabelOfAnchor(w: string)
    requires w != []
    ensures NavLabel("#" + w) == [ToUpper(w[0])] + w[1..]
  {
    RemoveFirstOfPrefixed('#', w);
  }

  /** A label is one character shorter than an href that holds a `#`, and as long otherwise. */
  lemma NavLabelLength(href: string)
    ensures |NavLabel(href)| == if '#' in href then |href| - 1 else |href|
  {
    RemoveFirstLength(href, '#');
  }

  /** The bare anchor `'#'` gets the empty label. */
  lemma NavLabelOfHashOnly()
    ensures NavLabel("#") == ""
  {
    NavLabelLength("#");
  }

  /** The six footer links read Hero, About, Portfolio, Philosophy, Skills, Contact. */
  lemma FooterLabels()
    ensures Labels() == ["Hero", "About", "Portfolio", "Philosophy", "Skills", "Contact"]
  {
    var names := ["hero", "about", "portfolio", "philosophy", "skills", "contact"];
    var labels := ["Hero", "About", "Portfolio", "Philosophy", "Skills", "Contact"];
    forall i | 0 <= i < 6
      ensures Labels()[i] == labels[i]
    {
      assert Anchors()[i] == "#" + names[i];
      NavLabelOfAnchor(names[i]);
      assert labels[i] == [ToUpper(names[i][0])] + names[i][1..];
    }
  }

  /**
   * `handleNav(href)`: scrolls to the element the href names, and does
   * nothing when the page has no such element.
   */
  function HandleNav(page: Dom.Page, href: string): (target: Option<string>)
    requires href in Anchors()
    ensures target.Some? <==> href[1..] in page
    ensures target.Some? ==> target.value == AnchorId(href)
  {
    Dom.ScrollToAnchor(page, href)
  }

  /** The id an anchor of the footer points at: its href without the `#`. */
  function AnchorId(href: string): string
  {
    RemoveFirst(href, '#')
  }
}
