/** scraper/adapters/indeed/extraction/dom.py (and `_extract_jobs_from_dom` of the
    single-file adapter): job cards read from the search page's DOM when the
    embedded mosaic data yields nothing. */
module Dom {
  import opened Outcomes
  import opened Browser
  import opened Selectors
  import Text

  /** One entry of the result; "company" and "location" are keys that may be absent. */
  datatype CardJob = CardJob(
    id: string,
    url: string,
    title: string,
    company: Option<string>,
    location: Option<string>)

  /** `get_attribute(name)`: None when the attribute is absent. */
  function Attr(n: Node, name: string): Option<string> {
    if name in n.attrs then Some(n.attrs[name]) else None
  }

  /** The job URL: a relative href is made absolute, any other non-empty href is
      kept, and a missing or empty href gives the viewjob address of the id. */
  function CardUrl(id: string, href: Option<string>, v: Variant): (url: string)
    ensures href.Some? && href.value != [] && Text.StartsWith(href.value, "/") ==> url == BASE_URL + href.value
    ensures href.Some? && href.value != [] && !Text.StartsWith(href.value, "/") ==> url == href.value
    ensures href.None? || href.value == [] ==> url == BASE_URL + "/viewjob?jk=" + id + FallbackSuffix(v)
  {
    if href.Some? && href.value != [] then
      if Text.StartsWith(href.value, "/") then BASE_URL + href.value else href.value
    else
      BASE_URL + "/viewjob?jk=" + id + FallbackSuffix(v)
  }

  /** What one card contributes: None when it has no `a[data-jk]` link, its
      data-jk is missing or empty, or one of its queries raises. */
  function CardJobOf(card: Node, v: Variant): Option<CardJob> {
    var links := Locate(card, JOB_LINK_SELECTOR);
    if links.Raised? || links.nodes == [] then None
    else
      var link := links.nodes[0];
      var jk := Attr(link, "data-jk");
      if jk.None? || jk.value == [] then None
      else
        var url := CardUrl(jk.value, Attr(link, "href"), v);
        var spans := Locate(card, JOB_TITLE_SPAN_SELECTOR);
        if spans.Raised? then None
        else
          var spanTitle := if spans.nodes != [] then Attr(spans.nodes[0], "title") else None;
          var title := if spans.nodes != [] && spanTitle.Some? && spanTitle.value != [] then spanTitle.value else link.text;
          var companies := Locate(card, COMPANY_NAME_SELECTOR);
          if companies.Raised? then None
          else
            var places := Locate(card, LOCATION_SELECTOR);
            if places.Raised? then None
            else
              Some(CardJob(jk.value, url, title,
                           if companies.nodes != [] then Some(companies.nodes[0].text) else None,
                           if places.nodes != [] then Some(places.nodes[0].text) else None))
  }

  /** The cards of the first selector, in list order, that matches at least one
      element; Hits([]) when none does, Raised when a query raises first. */
  function PickCards(root: Node, selectors: seq<string>): Query {
    if selectors == [] then Hits([])
    else
      var q := Locate(root, selectors[0]);
      if q.Raised? then Raised
      else if q.nodes != [] then q
      else PickCards(root, selectors[1..])
  }

  /** The entries the cards yield, in card order, skipping the cards that yield none. */
  function Harvest(cards: seq<Node>, v: Variant): seq<CardJob>
    decreases |cards|
  {
    if cards == [] then []
    else
      var prev := Harvest(cards[..|cards| - 1], v);
      match CardJobOf(cards[|cards| - 1], v)
      case Some(j) => prev + [j]
      case None => prev
  }

  /** The value `extract_jobs_from_dom` returns: a raising card query is caught
      by the outer handler, which returns the still-empty list. */
  function DomJobs(page: Page, v: Variant): seq<CardJob> {
    match PickCards(page.root, SERP_CARD_SELECTORS)
    case Raised => []
    case Hits(cards) => Harvest(cards, v)
  }

  /** One pass of the card loop's body. */
  method ReadCard(card: Node, v: Variant) returns (job: Option<CardJob>)
    ensures job == CardJobOf(card, v)
    ensures job.Some? ==> job.value.id != []
  {
    job := None;
    var links := Locate(card, JOB_LINK_SELECTOR);
    if links.Raised? || |links.nodes| == 0 {
      return;
    }
    var link := links.nodes[0];
    var jobId := Attr(link, "data-jk");
    if jobId.None? || jobId.value == [] {
      return;
    }
    var href := Attr(link, "href");
    var url;
    if href.Some? && href.value != [] {
      if Text.StartsWith(href.value, "/") {
        url := BASE_URL + href.value;
      } else {
        url := href.value;
      }
    } else {
      url := BASE_URL + "/viewjob?jk=" + jobId.value + FallbackSuffix(v);
    }
    var spans := Locate(card, JOB_TITLE_SPAN_SELECTOR);
    if spans.Raised? {
      return;
    }
    var title;
    if |spans.nodes| > 0 {
      var t := Attr(spans.nodes[0], "title");
      title := if t.Some? && t.value != [] then t.value else link.text;
    } else {
      title := link.text;
    }
    var companies := Locate(card, COMPANY_NAME_SELECTOR);
    if companies.Raised? {
      return;
    }
    var company := if |companies.nodes| > 0 then Some(companies.nodes[0].text) else None;
    var places := Locate(card, LOCATION_SELECTOR);
    if places.Raised? {
      return;
    }
    var location := if |places.nodes| > 0 then Some(places.nodes[0].text) else None;
    job := Some(CardJob(jobId.value, url, title, company, location));
  }

  /** `extract_jobs_from_dom`: choose the card selector, then read every card. */
  method ExtractJobsFromDom(page: Page, v: Variant) returns (jobs: seq<CardJob>)
    ensures jobs == DomJobs(page, v)
  {
    jobs := [];
    var jobCards: seq<Node> := [];
    var i := 0;
    while i < |SERP_CARD_SELECTORS|
      invariant 0 <= i <= |SERP_CARD_SELECTORS|
      invariant PickCards(page.root, SERP_CARD_SELECTORS) == PickCards(page.root, SERP_CARD_SELECTORS[i..])
    {
      var q := Locate(page.root, SERP_CARD_SELECTORS[i]);
      if q.Raised? {
        return;
      }
      if |q.nodes| > 0 {
        jobCards := q.nodes;
        break;
      }
      assert SERP_CARD_SELECTORS[i..][1..] == SERP_CARD_SELECTORS[i + 1..];
      i := i + 1;
    }
    if |jobCards| == 0 {
      return;
    }
    var k := 0;
    while k < |jobCards|
      invariant 0 <= k <= |jobCards|
      invariant jobs == Harvest(jobCards[..k], v)
    {
      var job := ReadCard(jobCards[k], v);
      assert jobCards[..k + 1][..k] == jobCards[..k];
      if job.Some? {
        jobs := jobs + [job.value];
      }
      k := k + 1;
    }
    assert jobCards[..k] == jobCards;
  }

  /** The first selector matching at least one element is used exclusively: when
      selector i matches and every earlier one matched nothing, its cards are the
      ones read, even if none of them yields an entry. */
  lemma {:induction false} PickFirstMatching(root: Node, selectors: seq<string>, i: nat)
    requires i < |selectors|
    requires Locate(root, selectors[i]).Hits? && Locate(root, selectors[i]).nodes != []
    requires forall j :: 0 <= j < i ==> Locate(root, selectors[j]) == Hits([])
    ensures PickCards(root, selectors) == Locate(root, selectors[i])
  {
    if i > 0 {
      PickFirstMatching(root, selectors[1..], i - 1);
    }
  }

  /** No card selector matching anything gives no entries. */
  lemma {:induction false} PickNone(root: Node, selectors: seq<string>)
    requires forall j :: 0 <= j < |selectors| ==> Locate(root, selectors[j]) == Hits([])
    ensures PickCards(root, selectors) == Hits([])
    decreases |selectors|
  {
    if selectors != [] {
      PickNone(root, selectors[1..]);
    }
  }

  /** Cards are independent: the entries of a concatenation are the entries of
      each part, in order, so a card that yields nothing (or raises) leaves the
      others' entries unchanged. */
  lemma {:induction false} HarvestAppend(a: seq<Node>, b: seq<Node>, v: Variant)
    ensures Harvest(a + b, v) == Harvest(a, v) + Harvest(b, v)
    decreases |b|
  {
    if b == [] {
      assert a + b == a;
    } else {
      var b' := b[..|b| - 1];
      assert (a + b)[..|a + b| - 1] == a + b';
      assert (a + b)[|a + b| - 1] == b[|b| - 1];
      HarvestAppend(a, b', v);
    }
  }

  /** At most one entry per card, each with a non-empty id taken from the card's
      first link. */
  lemma {:induction false} HarvestShape(cards: seq<Node>, v: Variant)
    ensures |Harvest(cards, v)| <= |cards|
    ensures forall j :: 0 <= j < |Harvest(cards, v)| ==>
      Harvest(cards, v)[j].id != [] &&
      exists c :: 0 <= c < |cards| && CardJobOf(cards[c], v) == Some(Harvest(cards, v)[j])
    decreases |cards|
  {
    if cards != [] {
      var init := cards[..|cards| - 1];
      HarvestShape(init, v);
      var h := Harvest(cards, v);
      forall j | 0 <= j < |h|
        ensures h[j].id != [] && exists c :: 0 <= c < |cards| && CardJobOf(cards[c], v) == Some(h[j])
      {
        if j < |Harvest(init, v)| {
          var c :| 0 <= c < |init| && CardJobOf(init[c], v) == Some(Harvest(init, v)[j]);
          assert cards[c] == init[c];
        } else {
          assert CardJobOf(cards[|cards| - 1], v) == Some(h[j]);
        }
      }
    }
  }

  /** A card yields nothing exactly when it has no `a[data-jk]` link, the first
      link's data-jk is missing or empty, or the title, company or location
      query raises (the per-card handler skips the card). */
  lemma CardSkipped(card: Node, v: Variant)
    ensures CardJobOf(card, v).None? <==>
      var links := Locate(card, JOB_LINK_SELECTOR);
      links.Raised? || links.nodes == [] ||
      Attr(links.nodes[0], "data-jk").None? || Attr(links.nodes[0], "data-jk").value == [] ||
      Locate(card, JOB_TITLE_SPAN_SELECTOR).Raised? ||
      Locate(card, COMPANY_NAME_SELECTOR).Raised? ||
      Locate(card, LOCATION_SELECTOR).Raised?
  {
  }

  /** An entry's id is the first link's data-jk and its URL is built from
      that link's href. */
  lemma CardIdentity(card: Node, v: Variant)
    requires CardJobOf(card, v).Some?
    ensures var link := Locate(card, JOB_LINK_SELECTOR).nodes[0];
      var j := CardJobOf(card, v).value;
      Attr(link, "data-jk") == Some(j.id) && j.id != [] &&
      j.url == CardUrl(j.id, Attr(link, "href"), v)
  {
  }

  /** The title is the non-empty `title` attribute of the first title span
      when there is one, and the first link's text otherwise. */
  lemma CardTitleRule(card: Node, v: Variant)
    requires CardJobOf(card, v).Some?
    ensures var link := Locate(card, JOB_LINK_SELECTOR).nodes[0];
      var spans := Locate(card, JOB_TITLE_SPAN_SELECTOR).nodes;
      var t := CardJobOf(card, v).value.title;
      (spans != [] && Attr(spans[0], "title").Some? && Attr(spans[0], "title").value != [] ==>
         t == Attr(spans[0], "title").value) &&
      (spans == [] || Attr(spans[0], "title").None? || Attr(spans[0], "title").value == [] ==>
         t == link.text)
  {
  }

  /** Company and location are present exactly when their element exists,
      and are then the first such element's text. */
  lemma CardOptionalFields(card: Node, v: Variant)
    requires CardJobOf(card, v).Some?
    ensures var j := CardJobOf(card, v).value;
      var companies := Locate(card, COMPANY_NAME_SELECTOR).nodes;
      var places := Locate(card, LOCATION_SELECTOR).nodes;
      (j.company.Some? <==> companies != []) &&
      (companies != [] ==> j.company.value == companies[0].text) &&
      (j.location.Some? <==> places != []) &&
      (places != [] ==> j.location.value == places[0].text)
  {
  }

  // ---------------------------------------------------------------------------
  // The two sample cards of tests/test_dom_extraction.py. The deep table-cell
  // selector matches only inside the first card, so only that card is read.

  const SAMPLE_HREF_1 := "/" + "rc/clk?jk=9b6b90751b656a90&bb=iZ5_JkklFNgZNycP-9k-Oh0BOaqzGJRH_4s1cQO1gMy3jyB_8bgnmaZJ0uPBEFnvZqhNTrLSMxbB_moy5uqnKS8XHs7viPnGrJMvAYzAAwq5XFIqcgZEhWz4JmybKh1_&xkcb=SoAi67M3ngwoIPAfK70LbzkdCdPP&fccid=7c13ea7d2941e927&vjs=3"
  const SAMPLE_LINK_1 := Node("Sales Advisor-Part Time",
    map["data-jk" := "9b6b90751b656a90",
        "href" := SAMPLE_HREF_1],
    map[], {})
  const SAMPLE_SPAN_1 := Node("Sales Advisor-Part Time", map["title" := "Sales Advisor-Part Time"], map[], {})
  const SAMPLE_CELL_1 := Node("Sales Advisor-Part Time",
    map[],
    map[JOB_LINK_SELECTOR := [SAMPLE_LINK_1],
        JOB_TITLE_SPAN_SELECTOR := [SAMPLE_SPAN_1],
        COMPANY_NAME_SELECTOR := [Node("H&M", map[], map[], {})],
        LOCATION_SELECTOR := [Node("Gurugram, Haryana", map[], map[], {})]],
    {})
  const SAMPLE_ITEM_2 := Node("Software Engineer",
    map[],
    map[JOB_LINK_SELECTOR := [Node("Software Engineer",
                                   map["data-jk" := "abc123def456", "href" := "/viewjob?jk=abc123def456"],
                                   map[], {})],
        JOB_TITLE_SPAN_SELECTOR := [Node("Software Engineer", map["title" := "Software Engineer"], map[], {})],
        COMPANY_NAME_SELECTOR := [Node("Tech Corp", map[], map[], {})],
        LOCATION_SELECTOR := [Node("Bangalore, Karnataka", map[], map[], {})]],
    {})
  const SAMPLE_ROOT := Node("",
    map[],
    map[SERP_CARD_SELECTORS[0] := [SAMPLE_CELL_1],
        SERP_CARD_SELECTORS[2] := [SAMPLE_CELL_1, SAMPLE_ITEM_2]],
    {})

  /** The sample page yields one entry (the first card's), not the two the
      test expects. */
  lemma SampleYieldsOne(v: Variant, html: Option<string>, feed: ScrollFeed)
    ensures var jobs := DomJobs(Page(SAMPLE_ROOT, html, feed), v);
      |jobs| == 1 &&
      jobs[0] == CardJob("9b6b90751b656a90", BASE_URL + SAMPLE_HREF_1, "Sales Advisor-Part Time",
                         Some("H&M"), Some("Gurugram, Haryana"))
  {
    assert Locate(SAMPLE_ROOT, SERP_CARD_SELECTORS[0]) == Hits([SAMPLE_CELL_1]);
    var href := SAMPLE_HREF_1;
    assert href[0] == ('/' as char);
    assert href[..1] == "/";
    assert Attr(SAMPLE_LINK_1, "href") == Some(href);
    assert Locate(SAMPLE_CELL_1, JOB_LINK_SELECTOR) == Hits([SAMPLE_LINK_1]);
    assert Locate(SAMPLE_CELL_1, JOB_TITLE_SPAN_SELECTOR) == Hits([SAMPLE_SPAN_1]);
    assert Locate(SAMPLE_CELL_1, COMPANY_NAME_SELECTOR) == Hits([Node("H&M", map[], map[], {})]);
    assert Locate(SAMPLE_CELL_1, LOCATION_SELECTOR) == Hits([Node("Gurugram, Haryana", map[], map[], {})]);
    assert CardJobOf(SAMPLE_CELL_1, v) == Some(CardJob("9b6b90751b656a90", BASE_URL + href, "Sales Advisor-Part Time",
                                                       Some("H&M"), Some("Gurugram, Haryana")));
    assert [SAMPLE_CELL_1][..0] == [];
    assert PickCards(SAMPLE_ROOT, SERP_CARD_SELECTORS) == Hits([SAMPLE_CELL_1]);
    assert Harvest([SAMPLE_CELL_1], v) == [CardJob("9b6b90751b656a90", BASE_URL + href, "Sales Advisor-Part Time",
                                                   Some("H&M"), Some("Gurugram, Haryana"))];
  }
}
