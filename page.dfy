/** A loaded browser tab as a value. Each element knows, for every selector the
    scraper asks about, the elements that selector matches inside it (document
    order), and the selectors whose query raises there (an invalid selector, a
    detached element, a timeout). The page also holds its HTML (`page.content()`)
    and the measurements `scroll_to_load_all_jobs` would read. */
module Browser {
  import opened Outcomes

  datatype Node = Node(
    text: string,                      // inner_text()
    attrs: map<string, string>,        // get_attribute(name); absent means None
    sub: map<string, seq<Node>>,       // locator(selector).all(); absent means none
    failing: set<string>)              // selectors whose query raises

  /** The answer to `locator(selector)`: it raised, or these elements matched. */
  datatype Query = Raised | Hits(nodes: seq<Node>)

  function Locate(n: Node, selector: string): (q: Query)
    ensures q.Raised? <==> selector in n.failing
  {
    if selector in n.failing then Raised
    else if selector in n.sub then Hits(n.sub[selector])
    else Hits([])
  }

  /** `locator(selector).count() > 0`, or None when the query raises. */
  function Present(n: Node, selector: string): Option<bool> {
    match Locate(n, selector)
    case Raised => None
    case Hits(ns) => Some(|ns| > 0)
  }

  /** `locator(selector).inner_text()` without `.first`: Playwright's strict mode
      raises unless exactly one element matches. None stands for the exception. */
  function StrictText(n: Node, selector: string): (r: Option<string>)
    ensures r.Some? ==> Locate(n, selector).Hits? && |Locate(n, selector).nodes| == 1
  {
    match Locate(n, selector)
    case Raised => None
    case Hits(ns) => if |ns| == 1 then Some(ns[0].text) else None
  }

  /** What one scrolling step measures: `document.body.scrollHeight` after the
      step, `window.pageYOffset + window.innerHeight`, and `scrollHeight` again
      after the extra wait at the bottom. */
  datatype Reading = Reading(height: int, bottom: int, recheck: int)

  /** The measurements a tab yields while scrolled: the initial height (None when
      `evaluate` raises) and one reading per step; a step past the end of `steps`
      raises. */
  datatype ScrollFeed = ScrollFeed(initial: Option<int>, steps: seq<Reading>)

  datatype Page = Page(
    root: Node,
    html: Option<string>,              // page.content(); None when it raises
    feed: ScrollFeed)
}
