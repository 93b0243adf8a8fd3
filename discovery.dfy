/** scraper/adapters/indeed/discovery.py (and the matching methods of the
    single-file adapter): the bot-challenge classifier, the lazy-load scroll
    routine, and the paginated discovery of job URLs with a dedup set that the
    adapter keeps across calls. */
module Discovery {
  import opened Outcomes
  import opened Json
  import opened Browser
  import opened Selectors
  import Text
  import Mosaic
  import Dom
  import Pagination
  import RateLimit

  // ---------------------------------------------------------------------------
  // detect_bot_challenge

  /** The CAPTCHA selectors in order: Some(true) at the first one present,
      Some(false) when none is, None when a count raises first. */
  function CaptchaScan(root: Node, selectors: seq<string>): (r: Option<bool>)
    ensures r == Some(false) <==> forall i :: 0 <= i < |selectors| ==> Present(root, selectors[i]) == Some(false)
  {
    if selectors == [] then Some(false)
    else
      var p := Present(root, selectors[0]);
      if p.None? then None
      else if p.value then Some(true)
      else
        var r := CaptchaScan(root, selectors[1..]);
        assert forall i :: 0 < i < |selectors| ==> selectors[i] == selectors[1..][i - 1];
        r
  }

  /** `any(keyword in html_lower for keyword in keywords)`. */
  function AnyKeyword(text: string, keywords: seq<string>): (b: bool)
    ensures b <==> exists i :: 0 <= i < |keywords| && Text.Contains(text, keywords[i])
  {
    if keywords == [] then false
    else if Text.Contains(text, keywords[0]) then true
    else
      var b := AnyKeyword(text, keywords[1..]);
      assert forall i :: 0 < i < |keywords| ==> keywords[i] == keywords[1..][i - 1];
      b
  }

  /** `detect_bot_challenge`: a CAPTCHA element flags the page; otherwise the
      blocking keywords are looked for only when the job-cards container is
      absent. Every exception gives False. */
  function DetectBotChallenge(page: Page): bool {
    var scan := CaptchaScan(page.root, CAPTCHA_SELECTORS);
    if scan.None? then false
    else if scan.value then true
    else
      var hasJobs := Present(page.root, JOB_CARDS_CONTAINER_SELECTOR);
      if hasJobs.None? || hasJobs.value then false
      else if page.html.None? then false
      else AnyKeyword(Text.Lower(page.html.value), BLOCKING_KEYWORDS)
  }

  /** A present CAPTCHA element flags the page when every earlier CAPTCHA query
      answered "absent". */
  lemma {:induction false} CaptchaFlags(page: Page, i: nat)
    requires i < |CAPTCHA_SELECTORS| && Present(page.root, CAPTCHA_SELECTORS[i]) == Some(true)
    requires forall j :: 0 <= j < i ==> Present(page.root, CAPTCHA_SELECTORS[j]) == Some(false)
    ensures DetectBotChallenge(page)
  {
    CaptchaScanAt(page.root, CAPTCHA_SELECTORS, i);
  }

  lemma {:induction false} CaptchaScanAt(root: Node, selectors: seq<string>, i: nat)
    requires i < |selectors| && Present(root, selectors[i]) == Some(true)
    requires forall j :: 0 <= j < i ==> Present(root, selectors[j]) == Some(false)
    ensures CaptchaScan(root, selectors) == Some(true)
  {
    if i > 0 {
      CaptchaScanAt(root, selectors[1..], i - 1);
    }
  }

  /** The conjunctive keyword rule: with no CAPTCHA and the job-cards container
      present the page is never flagged, whatever its text says; with the
      container absent (as on every job-detail page) the keywords alone decide,
      as a case-insensitive substring search of the whole HTML. */
  lemma KeywordRule(page: Page, html: string)
    requires CaptchaScan(page.root, CAPTCHA_SELECTORS) == Some(false)
    ensures Present(page.root, JOB_CARDS_CONTAINER_SELECTOR) == Some(true) ==>
      !DetectBotChallenge(page) && !DetectBotChallenge(page.(html := Some(html)))
    ensures Present(page.root, JOB_CARDS_CONTAINER_SELECTOR) == Some(false) ==>
      (DetectBotChallenge(page.(html := Some(html))) <==>
       exists i :: 0 <= i < |BLOCKING_KEYWORDS| && Text.Contains(Text.Lower(html), BLOCKING_KEYWORDS[i]))
  {
  }

  /** An exception anywhere gives False: a CAPTCHA query that raises before any
      CAPTCHA is seen, a raising container query, or unreadable content. */
  lemma DetectionErrors(page: Page)
    ensures CaptchaScan(page.root, CAPTCHA_SELECTORS).None? ==> !DetectBotChallenge(page)
    ensures (CaptchaScan(page.root, CAPTCHA_SELECTORS) == Some(false) &&
             Present(page.root, JOB_CARDS_CONTAINER_SELECTOR).None?) ==> !DetectBotChallenge(page)
    ensures (CaptchaScan(page.root, CAPTCHA_SELECTORS) == Some(false) && page.html.None?) ==>
      !DetectBotChallenge(page)
  {
  }

  // ---------------------------------------------------------------------------
  // scroll_to_load_all_jobs

  const SCROLL_STEP := 300
  const MAX_SCROLLS := 50

  /** How the routine ends: the number of downward scrolls issued, and whether
      it reached the final scroll back to the top (it does not when a
      measurement raises). */
  datatype ScrollRun = ScrollRun(downs: nat, reset: bool)

  predicate AtBottom(r: Reading) {
    r.bottom >= r.height - 100
  }

  /** The loop from step k with `prev` the last recorded height. */
  function ScrollFrom(feed: ScrollFeed, k: nat, prev: int): ScrollRun
    requires k <= MAX_SCROLLS
    decreases MAX_SCROLLS - k
  {
    if k == MAX_SCROLLS then ScrollRun(MAX_SCROLLS, true)
    else if k >= |feed.steps| then ScrollRun(k + 1, false)
    else
      var r := feed.steps[k];
      if AtBottom(r) && r.recheck == prev then ScrollRun(k + 1, true)
      else ScrollFrom(feed, k + 1, if AtBottom(r) then r.recheck else prev)
  }

  function ScrollOf(feed: ScrollFeed): ScrollRun {
    match feed.initial
    case None => ScrollRun(0, false)
    case Some(h) => ScrollFrom(feed, 0, h)
  }

  /** The scroll positions of the downward steps: 300, 600, ... */
  function Downs(n: nat): (r: seq<int>)
    ensures |r| == n && forall i :: 0 <= i < n ==> r[i] == SCROLL_STEP * (i + 1)
  {
    seq(n, i => SCROLL_STEP * (i + 1))
  }

  /** The `window.scrollTo` positions in the order issued. */
  function Positions(run: ScrollRun): seq<int> {
    Downs(run.downs) + (if run.reset then [0] else [])
  }

  /** The last recorded height when step k begins. */
  function PrevAt(feed: ScrollFeed, start: int, k: nat): int
    requires k <= |feed.steps|
  {
    if k == 0 then start
    else
      var r := feed.steps[k - 1];
      if AtBottom(r) then r.recheck else PrevAt(feed, start, k - 1)
  }

  predicate StopsAt(feed: ScrollFeed, start: int, k: nat)
    requires k < |feed.steps|
  {
    AtBottom(feed.steps[k]) && feed.steps[k].recheck == PrevAt(feed, start, k)
  }

  /** `scroll_to_load_all_jobs`: returns the scroll positions it issued. */
  method ScrollToLoadAllJobs(feed: ScrollFeed) returns (positions: seq<int>)
    ensures positions == Positions(ScrollOf(feed))
  {
    positions := [];
    if feed.initial.None? {
      return;
    }
    var previousHeight := feed.initial.value;
    var currentPosition := 0;
    var scrollsDone := 0;
    while scrollsDone < MAX_SCROLLS
      invariant 0 <= scrollsDone <= MAX_SCROLLS
      invariant currentPosition == SCROLL_STEP * scrollsDone
      invariant positions == Downs(scrollsDone)
      invariant ScrollOf(feed) == ScrollFrom(feed, scrollsDone, previousHeight)
    {
      currentPosition := currentPosition + SCROLL_STEP;
      positions := positions + [currentPosition];
      if scrollsDone >= |feed.steps| {
        // the height measurement raises; the handler skips the final scroll
        assert positions == Downs(scrollsDone + 1);
        return;
      }
      var reading := feed.steps[scrollsDone];
      if reading.bottom >= reading.height - 100 {
        var newHeight := reading.recheck;
        if newHeight == previousHeight {
          assert positions == Downs(scrollsDone + 1);
          positions := positions + [0];
          return;
        }
        previousHeight := newHeight;
      }
      scrollsDone := scrollsDone + 1;
    }
    positions := positions + [0];
  }

  /** At most 50 downward steps, at strictly increasing positions; the final
      scroll to the top is missing only when a measurement raised (the feed ran
      out) or the initial height could not be read. */
  lemma {:induction false} ScrollBounds(feed: ScrollFeed, k: nat, prev: int)
    requires k <= MAX_SCROLLS
    ensures var run := ScrollFrom(feed, k, prev);
      k < run.downs <= MAX_SCROLLS || (k == MAX_SCROLLS && run.downs == MAX_SCROLLS)
    ensures var run := ScrollFrom(feed, k, prev);
      k <= |feed.steps| && !run.reset ==> run.downs == |feed.steps| + 1 && |feed.steps| < MAX_SCROLLS
    decreases MAX_SCROLLS - k
  {
    if k < MAX_SCROLLS && k < |feed.steps| {
      var r := feed.steps[k];
      if !(AtBottom(r) && r.recheck == prev) {
        ScrollBounds(feed, k + 1, if AtBottom(r) then r.recheck else prev);
      }
    }
  }

  /** The loop stops early exactly at the first step that finds the viewport at
      the bottom and the re-measured height equal to the last recorded one. */
  lemma {:induction false} ScrollStopRule(feed: ScrollFeed, start: int, k: nat)
    requires k <= MAX_SCROLLS && k <= |feed.steps|
    requires forall j :: 0 <= j < k ==> !StopsAt(feed, start, j)
    ensures var run := ScrollFrom(feed, k, PrevAt(feed, start, k));
      run.reset && 0 < run.downs < MAX_SCROLLS ==>
        run.downs - 1 < |feed.steps| && StopsAt(feed, start, run.downs - 1) &&
        forall j :: 0 <= j < run.downs - 1 ==> !StopsAt(feed, start, j)
    decreases MAX_SCROLLS - k
  {
    if k < MAX_SCROLLS && k < |feed.steps| {
      if !StopsAt(feed, start, k) {
        ScrollStopRule(feed, start, k + 1);
      }
    }
  }

  /** The routine's run, read off the feed from the top. */
  lemma ScrollOfShape(feed: ScrollFeed)
    ensures ScrollOf(feed).downs <= MAX_SCROLLS
    ensures feed.initial.Some? ==> ScrollOf(feed).downs >= 1
    ensures feed.initial.Some? && ScrollOf(feed).reset && ScrollOf(feed).downs < MAX_SCROLLS ==>
      var k := ScrollOf(feed).downs - 1;
      k < |feed.steps| && StopsAt(feed, feed.initial.value, k) &&
      forall j :: 0 <= j < k ==> !StopsAt(feed, feed.initial.value, j)
  {
    if feed.initial.Some? {
      ScrollBounds(feed, 0, feed.initial.value);
      ScrollStopRule(feed, feed.initial.value, 0);
    }
  }

  // ---------------------------------------------------------------------------
  // discover_jobs

  /** What navigating to a SERP URL gives: `goto` raised, or the page as first
      loaded (read by the bot check and the scroll routine) and as it stands
      after scrolling (read by the extractors). */
  datatype Visit = GotoFailed | Loaded(landing: Page, scrolled: Page)

  /** The URLs a page contributes with the jobkey behind each, the dedup set
      after it, and whether an exception cut the page short. */
  datatype Gather = Gather(urls: seq<string>, keys: seq<Json>, seen: set<Json>, failed: bool)

  function MosaicUrl(env: Env, jk: Json): string {
    BASE_URL + "/viewjob?jk=" + Show(env, jk)
  }

  /** The mosaic card loop over `items` from the dedup set `seen`. A card that is
      not a dict, or a truthy jobkey that cannot be hashed, raises. The set is
      compared as Python compares it: a jobkey is looked up and recorded as its
      `PyKey`, so `true` after `1` (or `1` after `true`) is already seen, while
      the URL shows the key as the card wrote it. */
  function MosaicGather(env: Env, items: seq<Json>, seen: set<Json>): Gather
    decreases |items|
  {
    if items == [] then Gather([], [], seen, false)
    else
      var g := MosaicGather(env, items[..|items| - 1], seen);
      var card := items[|items| - 1];
      if g.failed then g
      else if !card.JObj? then g.(failed := true)
      else
        var jk := GetOr(card.fields, "jobkey", JNull);
        if !Truthy(jk) then g
        else if !Hashable(jk) then g.(failed := true)
        else if PyKey(jk) in g.seen then g
        else Gather(g.urls + [MosaicUrl(env, jk)], g.keys + [PyKey(jk)], g.seen + {PyKey(jk)}, false)
  }

  /** `1` and `true` are one jobkey to the loop, as they are to a Python set:
      whichever comes first is handed out, in its own spelling, and the other
      is skipped. */
  lemma MosaicTrueIsOne(env: Env)
    ensures var one := JObj(map["jobkey" := JNum(1)]);
            var yes := JObj(map["jobkey" := JBool(true)]);
      MosaicGather(env, [one, yes], {}).urls == [BASE_URL + "/viewjob?jk=1"] &&
      MosaicGather(env, [yes, one], {}).urls == [BASE_URL + "/viewjob?jk=True"]
  {
    var one := JObj(map["jobkey" := JNum(1)]);
    var yes := JObj(map["jobkey" := JBool(true)]);
    assert [one, yes][..1] == [one] && [yes, one][..1] == [yes];
    assert [one][..0] == [] && [yes][..0] == [];
    assert MosaicGather(env, [], {}) == Gather([], [], {}, false);
    assert GetOr(one.fields, "jobkey", JNull) == JNum(1);
    assert GetOr(yes.fields, "jobkey", JNull) == JBool(true);
    var g1 := MosaicGather(env, [one], {});
    assert g1 == Gather([MosaicUrl(env, JNum(1))], [JNum(1)], {JNum(1)}, false);
    assert MosaicGather(env, [one, yes], {}) == g1;
    var g2 := MosaicGather(env, [yes], {});
    assert g2 == Gather([MosaicUrl(env, JBool(true))], [JNum(1)], {JNum(1)}, false);
    assert MosaicGather(env, [yes, one], {}) == g2;
    assert Text.IntToString(1) == "1";
    assert Show(env, JNum(1)) == "1" && Show(env, JBool(true)) == "True";
    assert MosaicUrl(env, JNum(1)) == BASE_URL + "/viewjob?jk=" + "1" == BASE_URL + "/viewjob?jk=1";
    assert MosaicUrl(env, JBool(true)) == BASE_URL + "/viewjob?jk=" + "True" == BASE_URL + "/viewjob?jk=True";
  }

  /** The DOM entry loop: the key is the entry's id (a string is its own
      `PyKey`), the URL its url. */
  function DomGather(jobs: seq<Dom.CardJob>, seen: set<Json>): Gather
    decreases |jobs|
  {
    if jobs == [] then Gather([], [], seen, false)
    else
      var g := DomGather(jobs[..|jobs| - 1], seen);
      var job := jobs[|jobs| - 1];
      var jk := JStr(job.id);
      if job.id == [] || jk in g.seen then g
      else Gather(g.urls + [job.url], g.keys + [jk], g.seen + {jk}, false)
  }

  /** One page: mosaic cards exclusively when there are any, else the DOM entries.
      Iterating a truthy mosaic value that is not a list yields no dicts, so the
      first `.get` raises. */
  function PageGather(env: Env, v: Variant, page: Page, seen: set<Json>): Gather {
    var cards := Mosaic.ExtractMosaicData(env, page);
    if Truthy(cards) then
      if cards.JArr? then MosaicGather(env, cards.items, seen) else Gather([], [], seen, true)
    else DomGather(Dom.DomJobs(page, v), seen)
  }

  /** Why the page loop ended. */
  datatype Stop = Blocked | NoNew | Ceiling | Failed

  /** What one SERP page does to the loop: end it (with what the page still
      added before an exception) or hand on its new URLs and keep going. */
  datatype Step =
    | Halt(urls: seq<string>, keys: seq<Json>, seen: set<Json>, stop: Stop)
    | Go(urls: seq<string>, keys: seq<Json>, seen: set<Json>)

  /** How the page loop addresses and reads SERP pages: the URL of page k, the
      bot check on the page as loaded, and the card collection on the page as
      scrolled. */
  datatype Crawl = Crawl(serp: nat -> string, detect: Page -> bool, gather: (Page, set<Json>) -> Gather)

  /** The adapter's crawl: `build_serp_url(query, location, k)`,
      `detect_bot_challenge`, then mosaic or DOM cards. Its contract only
      wires these in; what the crawl promises is proved in `DiscoveryDedup`
      (no job URL twice), `DiscoveryPages` (at most MAX_PAGES pages, in
      order) and `AdapterSerpInjective` (each results page visited once). */
  function AdapterCrawl(env: Env, v: Variant, query: string, location: string): (rd: Crawl)
    ensures forall k: nat :: rd.serp(k) == Pagination.BuildSerpUrl(query, location, k, JOBS_PER_PAGE)
    ensures rd.detect == DetectBotChallenge
    ensures forall page, seen :: rd.gather(page, seen) == PageGather(env, v, page, seen)
  {
    Crawl(k => Pagination.BuildSerpUrl(query, location, k, JOBS_PER_PAGE), DetectBotChallenge,
          (page, seen) => PageGather(env, v, page, seen))
  }

  /** The body of the page loop, for a page already navigated to. */
  function StepAt(rd: Crawl, visit: Visit, seen: set<Json>): Step {
    match visit
    case GotoFailed => Halt([], [], seen, Failed)
    case Loaded(landing, scrolled) =>
      if rd.detect(landing) then Halt([], [], seen, Blocked)
      else
        var g := rd.gather(scrolled, seen);
        if g.failed then Halt(g.urls, g.keys, g.seen, Failed)
        else if |g.urls| == 0 then Halt([], [], g.seen, NoNew)
        else Go(g.urls, g.keys, g.seen)
  }

  datatype Frontier = Frontier(urls: seq<string>, keys: seq<Json>, seen: set<Json>, stop: Stop, visited: seq<string>)

  /** The page loop from page k with dedup set `seen`. */
  function FrontierFrom(web: string -> Visit, rd: Crawl, k: nat, seen: set<Json>): Frontier
    decreases MAX_PAGES - k
  {
    if k >= MAX_PAGES then Frontier([], [], seen, Ceiling, [])
    else
      var url := rd.serp(k);
      match StepAt(rd, web(url), seen)
      case Halt(urls, keys, seen', stop) => Frontier(urls, keys, seen', stop, [url])
      case Go(urls, keys, seen') =>
        var rest := FrontierFrom(web, rd, k + 1, seen');
        Frontier(urls + rest.urls, keys + rest.keys, rest.seen, rest.stop, [url] + rest.visited)
  }

  /** `keys` are new and pairwise distinct, and `after` is `before` plus exactly them. */
  ghost predicate Extends(before: set<Json>, keys: seq<Json>, after: set<Json>) {
    (forall i, j :: 0 <= i < j < |keys| ==> keys[i] != keys[j]) &&
    (forall i :: 0 <= i < |keys| ==> keys[i] !in before) &&
    (forall x :: x in after <==> x in before || x in keys) &&
    |after| == |before| + |keys|
  }

  lemma ExtendsOne(before: set<Json>, keys: seq<Json>, mid: set<Json>, jk: Json)
    requires Extends(before, keys, mid) && jk !in mid
    ensures Extends(before, keys + [jk], mid + {jk})
  {
    var ks := keys + [jk];
    forall i | 0 <= i < |keys| ensures ks[i] == keys[i] && keys[i] in mid { }
  }

  lemma ExtendsTrans(s0: set<Json>, k1: seq<Json>, s1: set<Json>, k2: seq<Json>, s2: set<Json>)
    requires Extends(s0, k1, s1) && Extends(s1, k2, s2)
    ensures Extends(s0, k1 + k2, s2)
  {
    var ks := k1 + k2;
    forall i | 0 <= i < |k1| ensures ks[i] == k1[i] && k1[i] in s1 { }
    forall i | |k1| <= i < |ks| ensures ks[i] == k2[i - |k1|] { }
    forall x ensures x in s2 <==> x in s0 || x in ks {
      if x in k2 {
        var i :| 0 <= i < |k2| && k2[i] == x;
        assert ks[|k1| + i] == x;
      }
      if x in ks {
        var i :| 0 <= i < |ks| && ks[i] == x;
        if i < |k1| { assert x in k1; } else { assert x in k2; }
      }
    }
  }

  lemma {:induction false} MosaicGatherDedup(env: Env, items: seq<Json>, seen: set<Json>)
    ensures var g := MosaicGather(env, items, seen);
      |g.urls| == |g.keys| && Extends(seen, g.keys, g.seen) &&
      forall i :: 0 <= i < |g.keys| ==>
        g.urls[i] == MosaicUrl(env, g.keys[i]) ||
        (g.keys[i] == JNum(1) && g.urls[i] == MosaicUrl(env, JBool(true)))
    decreases |items|
  {
    if items != [] {
      var g := MosaicGather(env, items[..|items| - 1], seen);
      MosaicGatherDedup(env, items[..|items| - 1], seen);
      var card := items[|items| - 1];
      if !g.failed && card.JObj? {
        var jk := GetOr(card.fields, "jobkey", JNull);
        if Truthy(jk) && Hashable(jk) && PyKey(jk) !in g.seen {
          ExtendsOne(seen, g.keys, g.seen, PyKey(jk));
        }
      }
    }
  }

  lemma {:induction false} DomGatherDedup(jobs: seq<Dom.CardJob>, seen: set<Json>)
    ensures var g := DomGather(jobs, seen);
      |g.urls| == |g.keys| && Extends(seen, g.keys, g.seen) && !g.failed
    decreases |jobs|
  {
    if jobs != [] {
      var g := DomGather(jobs[..|jobs| - 1], seen);
      DomGatherDedup(jobs[..|jobs| - 1], seen);
      var jk := JStr(jobs[|jobs| - 1].id);
      if jobs[|jobs| - 1].id != [] && jk !in g.seen {
        ExtendsOne(seen, g.keys, g.seen, jk);
      }
    }
  }

  lemma PageGatherDedup(env: Env, v: Variant, page: Page, seen: set<Json>)
    ensures var g := PageGather(env, v, page, seen);
      |g.urls| == |g.keys| && Extends(seen, g.keys, g.seen)
  {
    var cards := Mosaic.ExtractMosaicData(env, page);
    if Truthy(cards) {
      if cards.JArr? {
        MosaicGatherDedup(env, cards.items, seen);
      }
    } else {
      DomGatherDedup(Dom.DomJobs(page, v), seen);
    }
  }

  /** Every page read hands back one key per URL, extending the set. */
  ghost predicate GatherSound(rd: Crawl) {
    forall page, seen :: |rd.gather(page, seen).urls| == |rd.gather(page, seen).keys| &&
      Extends(seen, rd.gather(page, seen).keys, rd.gather(page, seen).seen)
  }

  lemma AdapterCrawlSound(env: Env, v: Variant, query: string, location: string)
    ensures GatherSound(AdapterCrawl(env, v, query, location))
  {
    var rd := AdapterCrawl(env, v, query, location);
    forall page, seen
      ensures |rd.gather(page, seen).urls| == |rd.gather(page, seen).keys| &&
        Extends(seen, rd.gather(page, seen).keys, rd.gather(page, seen).seen)
    {
      PageGatherDedup(env, v, page, seen);
    }
  }

  /** One page: its keys extend the set, a page that lets the loop go on was
      loaded, not flagged and gave at least one URL, and a Blocked halt comes
      from a flagged page. */
  lemma StepShape(rd: Crawl, visit: Visit, seen: set<Json>)
    requires GatherSound(rd)
    ensures var s := StepAt(rd, visit, seen);
      |s.urls| == |s.keys| && Extends(seen, s.keys, s.seen) &&
      (s.Go? ==> visit.Loaded? && !rd.detect(visit.landing) && |s.urls| >= 1) &&
      (s.Halt? && s.stop.Blocked? ==> visit.Loaded? && rd.detect(visit.landing)) &&
      (s.Halt? ==> !s.stop.Ceiling?)
  {
  }

  /** Dedup across the whole loop: one jobkey per returned URL, none of them in
      the set the call started with, no two alike, and the set grows by exactly
      those keys (one element per returned URL). */
  lemma {:induction false} FrontierDedup(web: string -> Visit, rd: Crawl, k: nat, seen: set<Json>)
    requires GatherSound(rd)
    ensures var f := FrontierFrom(web, rd, k, seen);
      |f.urls| == |f.keys| && Extends(seen, f.keys, f.seen)
    decreases MAX_PAGES - k
  {
    if k < MAX_PAGES {
      var url := rd.serp(k);
      var s := StepAt(rd, web(url), seen);
      StepShape(rd, web(url), seen);
      if s.Go? {
        var rest := FrontierFrom(web, rd, k + 1, s.seen);
        FrontierDedup(web, rd, k + 1, s.seen);
        ExtendsTrans(seen, s.keys, s.seen, rest.keys, rest.seen);
      }
    }
  }

  /** The adapter's dedup, from whatever set an earlier call left behind: no
      URL is handed out twice for the same jobkey over the adapter's life. */
  lemma DiscoveryDedup(env: Env, v: Variant, web: string -> Visit, query: string, location: string,
                       seen: set<Json>)
    ensures var f := FrontierFrom(web, AdapterCrawl(env, v, query, location), 0, seen);
      |f.urls| == |f.keys| && Extends(seen, f.keys, f.seen)
  {
    AdapterCrawlSound(env, v, query, location);
    FrontierDedup(web, AdapterCrawl(env, v, query, location), 0, seen);
  }

  /** Distinct page numbers have distinct SERP URLs. */
  ghost predicate SerpInjective(rd: Crawl) {
    forall i: nat, j: nat :: rd.serp(i) == rd.serp(j) ==> i == j
  }

  /** With distinct URLs per page, no SERP URL is fetched twice. */
  lemma FrontierDistinct(web: string -> Visit, rd: Crawl, seen: set<Json>)
    requires SerpInjective(rd)
    ensures var f := FrontierFrom(web, rd, 0, seen);
      forall i, j :: 0 <= i < j < |f.visited| ==> f.visited[i] != f.visited[j]
  {
    FrontierUrls(web, rd, 0, seen);
  }

  lemma AdapterSerpInjective(env: Env, v: Variant, query: string, location: string)
    ensures SerpInjective(AdapterCrawl(env, v, query, location))
  {
    var rd := AdapterCrawl(env, v, query, location);
    forall i: nat, j: nat | rd.serp(i) == rd.serp(j) ensures i == j {
      Pagination.DistinctPages(query, location, i, j, JOBS_PER_PAGE);
    }
  }

  /** The adapter fetches SERP pages 0, 1, ... in order, at most five, each at
      its own URL (no page is fetched twice). */
  lemma DiscoveryPages(env: Env, v: Variant, web: string -> Visit, query: string, location: string,
                       seen: set<Json>)
    ensures var f := FrontierFrom(web, AdapterCrawl(env, v, query, location), 0, seen);
      1 <= |f.visited| <= MAX_PAGES &&
      (forall i :: 0 <= i < |f.visited| ==>
         f.visited[i] == Pagination.BuildSerpUrl(query, location, i, JOBS_PER_PAGE)) &&
      (forall i, j :: 0 <= i < j < |f.visited| ==> f.visited[i] != f.visited[j])
  {
    var rd := AdapterCrawl(env, v, query, location);
    FrontierUrls(web, rd, 0, seen);
    AdapterSerpInjective(env, v, query, location);
    FrontierDistinct(web, rd, seen);
  }

  /** One turn of the page loop: page k's step either ends the loop there or
      is followed by the loop from page k + 1. */
  lemma FrontierUnfold(web: string -> Visit, rd: Crawl, k: nat, seen: set<Json>)
    requires k < MAX_PAGES
    ensures var url := rd.serp(k);
            var s := StepAt(rd, web(url), seen);
            var f := FrontierFrom(web, rd, k, seen);
      (s.Halt? ==> f == Frontier(s.urls, s.keys, s.seen, s.stop, [url])) &&
      (s.Go? ==> var rest := FrontierFrom(web, rd, k + 1, s.seen);
                 f == Frontier(s.urls + rest.urls, s.keys + rest.keys, rest.seen, rest.stop, [url] + rest.visited))
  {
  }

  /** SERP pages are fetched in increasing order from page k, never past page 4. */
  lemma {:induction false} FrontierUrls(web: string -> Visit, rd: Crawl, k: nat, seen: set<Json>)
    requires k <= MAX_PAGES
    ensures var f := FrontierFrom(web, rd, k, seen);
      |f.visited| <= MAX_PAGES - k &&
      (k < MAX_PAGES ==> |f.visited| >= 1) &&
      forall i :: 0 <= i < |f.visited| ==>
        f.visited[i] == rd.serp(k + i)
    decreases MAX_PAGES - k
  {
    if k < MAX_PAGES {
      var url := rd.serp(k);
      var s := StepAt(rd, web(url), seen);
      FrontierUnfold(web, rd, k, seen);
      if s.Go? {
        FrontierGo(web, rd, k, seen);
        FrontierUrls(web, rd, k + 1, s.seen);
      } else {
        FrontierHalt(web, rd, k, seen);
      }
    }
  }

  /** The dedup set the page loop started from holds when it reads page k + i:
      each page that let the loop go on hands its set to the next one. */
  function SeenBefore(web: string -> Visit, rd: Crawl, k: nat, seen: set<Json>, i: nat): set<Json>
    decreases i
  {
    if i == 0 || k >= MAX_PAGES then seen
    else
      match StepAt(rd, web(rd.serp(k)), seen)
      case Halt(_, _, _, _) => seen
      case Go(_, _, seen') => SeenBefore(web, rd, k + 1, seen', i - 1)
  }

  /** A page that lets the loop go on: loaded, not flagged, and its card
      collection from set `seen` neither failed nor came back empty. */
  predicate Productive(rd: Crawl, visit: Visit, seen: set<Json>) {
    visit.Loaded? && !rd.detect(visit.landing) &&
    !rd.gather(visit.scrolled, seen).failed && |rd.gather(visit.scrolled, seen).urls| >= 1
  }

  /** A page that ends the loop with NoNew: loaded, not flagged, and its card
      collection succeeded with no new URL. */
  predicate NothingNew(rd: Crawl, visit: Visit, seen: set<Json>) {
    visit.Loaded? && !rd.detect(visit.landing) &&
    !rd.gather(visit.scrolled, seen).failed && rd.gather(visit.scrolled, seen).urls == []
  }

  /** A page that ends the loop with Failed: `goto` raised, or the page was not
      flagged and its card collection raised. */
  predicate Broke(rd: Crawl, visit: Visit, seen: set<Json>) {
    visit.GotoFailed? ||
    (!rd.detect(visit.landing) && rd.gather(visit.scrolled, seen).failed)
  }

  /** Each outcome of one page, and only it, follows from what the page shows:
      the loop goes on exactly from a productive page, stops Blocked exactly on
      a flagged one, NoNew exactly on one with nothing new and Failed exactly
      when `goto` or the collection raised; one page never gives Ceiling. */
  lemma StepReasons(rd: Crawl, visit: Visit, seen: set<Json>)
    ensures var s := StepAt(rd, visit, seen);
      (s.Go? <==> Productive(rd, visit, seen)) &&
      (s.Halt? && s.stop.Blocked? <==> visit.Loaded? && rd.detect(visit.landing)) &&
      (s.Halt? && s.stop.NoNew? <==> NothingNew(rd, visit, seen)) &&
      (s.Halt? && s.stop.Failed? <==> Broke(rd, visit, seen)) &&
      (s.Halt? ==> !s.stop.Ceiling?)
  {
  }

  /** A page that lets the loop go on is followed by the loop from the next
      page, which reads page k + j with the set the loop from k has at j. */
  lemma FrontierGo(web: string -> Visit, rd: Crawl, k: nat, seen: set<Json>)
    requires k < MAX_PAGES && StepAt(rd, web(rd.serp(k)), seen).Go?
    ensures var s := StepAt(rd, web(rd.serp(k)), seen);
      var f := FrontierFrom(web, rd, k, seen);
      var rest := FrontierFrom(web, rd, k + 1, s.seen);
      |f.visited| == 1 + |rest.visited| && f.stop == rest.stop &&
      f.visited[0] == rd.serp(k) && SeenBefore(web, rd, k, seen, 0) == seen &&
      forall j :: 1 <= j < |f.visited| ==>
        f.visited[j] == rest.visited[j - 1] &&
        SeenBefore(web, rd, k, seen, j) == SeenBefore(web, rd, k + 1, s.seen, j - 1)
  {
    FrontierUnfold(web, rd, k, seen);
  }

  /** A page that ends the loop is the only page read. */
  lemma FrontierHalt(web: string -> Visit, rd: Crawl, k: nat, seen: set<Json>)
    requires k < MAX_PAGES && StepAt(rd, web(rd.serp(k)), seen).Halt?
    ensures var f := FrontierFrom(web, rd, k, seen);
      f.visited == [rd.serp(k)] && f.stop == StepAt(rd, web(rd.serp(k)), seen).stop &&
      SeenBefore(web, rd, k, seen, 0) == seen
  {
    FrontierUnfold(web, rd, k, seen);
  }

  /** Page by page: every page before the last one read let the loop go on. */
  lemma {:induction false} FrontierProductive(web: string -> Visit, rd: Crawl, k: nat, seen: set<Json>)
    ensures var f := FrontierFrom(web, rd, k, seen);
      forall i :: 0 <= i < |f.visited| - 1 ==>
        Productive(rd, web(f.visited[i]), SeenBefore(web, rd, k, seen, i))
    decreases MAX_PAGES - k
  {
    if k < MAX_PAGES {
      var url := rd.serp(k);
      var s := StepAt(rd, web(url), seen);
      StepReasons(rd, web(url), seen);
      if s.Go? {
        FrontierGo(web, rd, k, seen);
        FrontierProductive(web, rd, k + 1, s.seen);
      } else {
        FrontierHalt(web, rd, k, seen);
      }
    }
  }

  /** The last page read and the set it was read with account for the stop
      reason: flagged for Blocked, nothing new for NoNew, a raising `goto` or
      collection for Failed; only Ceiling reads no deciding page. */
  lemma {:induction false} FrontierLast(web: string -> Visit, rd: Crawl, k: nat, seen: set<Json>)
    ensures var f := FrontierFrom(web, rd, k, seen);
      var n := |f.visited|;
      (!f.stop.Ceiling? ==> n >= 1) &&
      (f.stop.Blocked? ==> web(f.visited[n - 1]).Loaded? && rd.detect(web(f.visited[n - 1]).landing)) &&
      (f.stop.NoNew? ==> NothingNew(rd, web(f.visited[n - 1]), SeenBefore(web, rd, k, seen, n - 1))) &&
      (f.stop.Failed? ==> Broke(rd, web(f.visited[n - 1]), SeenBefore(web, rd, k, seen, n - 1)))
    decreases MAX_PAGES - k
  {
    if k < MAX_PAGES {
      var url := rd.serp(k);
      var s := StepAt(rd, web(url), seen);
      StepReasons(rd, web(url), seen);
      if s.Go? {
        FrontierGo(web, rd, k, seen);
        FrontierLast(web, rd, k + 1, s.seen);
      } else {
        FrontierHalt(web, rd, k, seen);
      }
    }
  }

  /** Every page but the last gave at least one URL, and a loop that ran into
      the page ceiling read every page from k on. */
  lemma {:induction false} FrontierCount(web: string -> Visit, rd: Crawl, k: nat, seen: set<Json>)
    requires k <= MAX_PAGES
    ensures var f := FrontierFrom(web, rd, k, seen);
      |f.urls| >= |f.visited| - 1 &&
      (f.stop.Ceiling? ==> |f.visited| == MAX_PAGES - k && |f.urls| >= MAX_PAGES - k)
    decreases MAX_PAGES - k
  {
    if k < MAX_PAGES {
      var s := StepAt(rd, web(rd.serp(k)), seen);
      FrontierUnfold(web, rd, k, seen);
      if s.Go? {
        FrontierCount(web, rd, k + 1, s.seen);
      }
    }
  }

  /** The stop rules: every page before the last was loaded, not flagged, and
      its card collection neither failed nor came back empty; the loop ends on
      the first flagged page (Blocked), the first page whose collection
      succeeds with nothing new (NoNew), a raising `goto` or collection
      (Failed), or after the fifth page (Ceiling). */
  lemma {:induction false} FrontierStops(web: string -> Visit, rd: Crawl, k: nat, seen: set<Json>)
    requires k <= MAX_PAGES
    ensures var f := FrontierFrom(web, rd, k, seen);
      var n := |f.visited|;
      (forall i :: 0 <= i < n - 1 ==> Productive(rd, web(f.visited[i]), SeenBefore(web, rd, k, seen, i))) &&
      |f.urls| >= n - 1 &&
      (!f.stop.Ceiling? ==> n >= 1) &&
      (f.stop.Blocked? ==> web(f.visited[n - 1]).Loaded? && rd.detect(web(f.visited[n - 1]).landing)) &&
      (f.stop.NoNew? ==> NothingNew(rd, web(f.visited[n - 1]), SeenBefore(web, rd, k, seen, n - 1))) &&
      (f.stop.Failed? ==> Broke(rd, web(f.visited[n - 1]), SeenBefore(web, rd, k, seen, n - 1))) &&
      (f.stop.Ceiling? ==> n == MAX_PAGES - k && |f.urls| >= MAX_PAGES - k)
  {
    FrontierProductive(web, rd, k, seen);
    FrontierLast(web, rd, k, seen);
    FrontierCount(web, rd, k, seen);
  }

  /** Mosaic exclusivity: on a page whose mosaic data is truthy the DOM is not
      consulted, even when none of the cards is new: two pages with the same
      HTML give the same result whatever their DOMs. */
  lemma MosaicExclusive(env: Env, v: Variant, page: Page, other: Page, seen: set<Json>)
    requires page.html == other.html
    requires Truthy(Mosaic.ExtractMosaicData(env, page))
    ensures PageGather(env, v, page, seen) == PageGather(env, v, other, seen)
  {
  }

  /** The retry wrapper around `discover_jobs` only ever sees failures of
      `new_page`: once the tab is open every error is swallowed, so each call is
      the open's failure or the frontier's URLs, and the whole retried call
      equals retrying the open alone. */
  function AttemptOf(open: Outcome<()>, urls: seq<string>): (r: Outcome<seq<string>>)
    ensures r.Ok? <==> open.Ok?
    ensures r.Ok? ==> r.value == urls
  {
    match open
    case Ok(_) => Ok(urls)
    case Retryable(e) => Retryable(e)
    case Fatal(e) => Fatal(e)
  }

  lemma {:induction false} RetrySeesOnlyOpen(opens: nat -> Outcome<()>, urls: seq<string>, maxRetries: int, k: nat)
    ensures var whole := RateLimit.RetryFrom(j => AttemptOf(opens(j), urls), maxRetries, k);
            var open := RateLimit.RetryFrom(opens, maxRetries, k);
      whole.calls == open.calls && whole.result == AttemptOf(open.result, urls)
    decreases if maxRetries > k then maxRetries - k else 0
  {
    if opens(k).Retryable? && k < maxRetries {
      RetrySeesOnlyOpen(opens, urls, maxRetries, k + 1);
    }
  }

  /** What the page loop has gathered so far, followed by the loop from the
      current page, is the whole loop. */
  ghost predicate Carried(f0: Frontier, urls: seq<string>, keys: seq<Json>, visited: seq<string>, fk: Frontier) {
    f0.urls == urls + fk.urls && f0.keys == keys + fk.keys && f0.seen == fk.seen &&
    f0.stop == fk.stop && f0.visited == visited + fk.visited
  }

  /** One turn of the page loop: a halting page completes the loop, a page
      that lets it go on carries the invariant to the next page. */
  lemma CrawlTurn(web: string -> Visit, rd: Crawl, k: nat, seen: set<Json>, f0: Frontier,
                  urls: seq<string>, keys: seq<Json>, visited: seq<string>, step: Step)
    requires k < MAX_PAGES
    requires Carried(f0, urls, keys, visited, FrontierFrom(web, rd, k, seen))
    requires step == StepAt(rd, web(rd.serp(k)), seen)
    ensures step.Halt? ==>
      f0 == Frontier(urls + step.urls, keys + step.keys, step.seen, step.stop, visited + [rd.serp(k)])
    ensures step.Go? ==>
      Carried(f0, urls + step.urls, keys + step.keys, visited + [rd.serp(k)], FrontierFrom(web, rd, k + 1, step.seen))
  {
    FrontierUnfold(web, rd, k, seen);
    if step.Go? {
      var rest := FrontierFrom(web, rd, k + 1, step.seen);
      assert f0.urls == (urls + step.urls) + rest.urls;
      assert f0.keys == (keys + step.keys) + rest.keys;
      assert f0.visited == (visited + [rd.serp(k)]) + rest.visited;
    }
  }

  /** The adapter: its query, location and variant, and the dedup set it keeps
      for its whole life, holding each jobkey as its `PyKey`. */
  class IndeedAdapter {
    const query: string
    const location: string
    const variant: Variant
    var seenJks: set<Json>

    constructor(query: string, location: string, variant: Variant)
      ensures this.query == query && this.location == location && this.variant == variant
      ensures seenJks == {}
    {
      this.query := query;
      this.location := location;
      this.variant := variant;
      seenJks := {};
    }

    /** The mosaic card loop, adding to the dedup set in place. */
    method CollectMosaic(env: Env, items: seq<Json>) returns (added: seq<string>, keys: seq<Json>, failed: bool)
      modifies this
      ensures Gather(added, keys, seenJks, failed) == MosaicGather(env, items, old(seenJks))
    {
      ghost var seen0 := seenJks;
      added := [];
      keys := [];
      failed := false;
      var i := 0;
      while i < |items|
        invariant 0 <= i <= |items|
        invariant Gather(added, keys, seenJks, false) == MosaicGather(env, items[..i], seen0)
      {
        assert items[..i + 1][..i] == items[..i];
        var card := items[i];
        if !card.JObj? {
          failed := true;
          MosaicFailureSticks(env, items, seen0, i + 1);
          return;
        }
        var jk := GetOr(card.fields, "jobkey", JNull);
        if Truthy(jk) {
          if !Hashable(jk) {
            failed := true;
            MosaicFailureSticks(env, items, seen0, i + 1);
            return;
          }
          if PyKey(jk) !in seenJks {
            seenJks := seenJks + {PyKey(jk)};
            added := added + [MosaicUrl(env, jk)];
            keys := keys + [PyKey(jk)];
          }
        }
        i := i + 1;
      }
      assert items[..i] == items;
    }

    /** The DOM entry loop, adding to the dedup set in place. */
    method CollectDom(jobs: seq<Dom.CardJob>) returns (added: seq<string>, keys: seq<Json>)
      modifies this
      ensures Gather(added, keys, seenJks, false) == DomGather(jobs, old(seenJks))
    {
      ghost var seen0 := seenJks;
      added := [];
      keys := [];
      var i := 0;
      while i < |jobs|
        invariant 0 <= i <= |jobs|
        invariant Gather(added, keys, seenJks, false) == DomGather(jobs[..i], seen0)
      {
        assert jobs[..i + 1][..i] == jobs[..i];
        var jk := JStr(jobs[i].id);
        if jobs[i].id != [] && jk !in seenJks {
          seenJks := seenJks + {jk};
          added := added + [jobs[i].url];
          keys := keys + [jk];
        }
        i := i + 1;
      }
      assert jobs[..i] == jobs;
    }

    /** One pass of the page loop's body for a page already navigated to:
        the bot check, the scroll, then the mosaic cards or the DOM entries. */
    method VisitPage(env: Env, visit: Visit) returns (step: Step)
      modifies this
      ensures step == StepAt(AdapterCrawl(env, variant, query, location), visit, old(seenJks)) && seenJks == step.seen
    {
      if visit.GotoFailed? {
        return Halt([], [], seenJks, Failed);
      }
      if DetectBotChallenge(visit.landing) {
        return Halt([], [], seenJks, Blocked);
      }
      var _ := ScrollToLoadAllJobs(visit.landing.feed);
      var cards := Mosaic.ExtractMosaicData(env, visit.scrolled);
      var added: seq<string>;
      var addedKeys: seq<Json>;
      var failed := false;
      if Truthy(cards) {
        if !cards.JArr? {
          added, addedKeys, failed := [], [], true;
        } else {
          added, addedKeys, failed := CollectMosaic(env, cards.items);
        }
      } else {
        var jobs := Dom.ExtractJobsFromDom(visit.scrolled, variant);
        added, addedKeys := CollectDom(jobs);
      }
      if failed {
        return Halt(added, addedKeys, seenJks, Failed);
      }
      var newJobsFound := |added|;
      if newJobsFound == 0 {
        return Halt([], [], seenJks, NoNew);
      }
      return Go(added, addedKeys, seenJks);
    }

    /** The page loop of `discover_jobs`, once the tab is open. */
    method CrawlPages(env: Env, web: string -> Visit)
      returns (urls: seq<string>, keys: seq<Json>, visited: seq<string>, stop: Stop)
      modifies this
      ensures Frontier(urls, keys, seenJks, stop, visited) ==
        FrontierFrom(web, AdapterCrawl(env, variant, query, location), 0, old(seenJks))
    {
      ghost var rd := AdapterCrawl(env, variant, query, location);
      ghost var f0 := FrontierFrom(web, rd, 0, seenJks);
      urls, keys, visited, stop := [], [], [], Ceiling;
      var pageNum := 0;
      while pageNum < MAX_PAGES
        invariant 0 <= pageNum <= MAX_PAGES
        invariant Carried(f0, urls, keys, visited, FrontierFrom(web, rd, pageNum, seenJks))
        decreases MAX_PAGES - pageNum
      {
        ghost var seenBefore := seenJks;
        var url := Pagination.BuildSerpUrl(query, location, pageNum, JOBS_PER_PAGE);
        assert url == rd.serp(pageNum);
        var step := VisitPage(env, web(url));
        CrawlTurn(web, rd, pageNum, seenBefore, f0, urls, keys, visited, step);
        urls, keys, visited := urls + step.urls, keys + step.keys, visited + [url];
        if step.Halt? {
          stop := step.stop;
          return;
        }
        pageNum := pageNum + 1;
      }
    }

    /** `discover_jobs` under `with_retry()`: `opens(k)` is how the k-th
        `new_page` call ends and `jitter` the backoff draws. Returns the URLs,
        the jobkey behind each, the SERP URLs navigated to and why the page loop
        ended; the dedup set is updated in place. */
    method DiscoverJobs(env: Env, web: string -> Visit, opens: nat -> Outcome<()>, jitter: nat -> real)
      returns (r: Outcome<seq<string>>, keys: seq<Json>, visited: seq<string>, stop: Stop)
      requires forall k :: 0.0 <= jitter(k) <= 1.0
      modifies this
      ensures var open := RateLimit.RetryFrom(opens, RateLimit.MAX_RETRIES, 0).result;
              var f := FrontierFrom(web, AdapterCrawl(env, variant, query, location), 0, old(seenJks));
        r == AttemptOf(open, f.urls) &&
        (open.Ok? ==> seenJks == f.seen && visited == f.visited && keys == f.keys && stop == f.stop) &&
        (!open.Ok? ==> seenJks == old(seenJks) && visited == [])
    {
      var open, calls, sleeps := RateLimit.WithRetry(opens, RateLimit.MAX_RETRIES, RateLimit.RETRY_BASE_DELAY,
                                                     RateLimit.RETRY_MAX_DELAY, jitter);
      if !open.Ok? {
        r, keys, visited, stop := AttemptOf(open, []), [], [], Failed;
        return;
      }
      var urls;
      urls, keys, visited, stop := CrawlPages(env, web);
      r := Ok(urls);
    }
  }

  lemma {:induction false} MosaicFailureSticks(env: Env, items: seq<Json>, seen: set<Json>, i: nat)
    requires 0 < i <= |items| && MosaicGather(env, items[..i], seen).failed
    ensures MosaicGather(env, items, seen) == MosaicGather(env, items[..i], seen)
    decreases |items| - i
  {
    if i < |items| {
      assert items[..i + 1][..i] == items[..i];
      MosaicFailureSticks(env, items, seen, i + 1);
    } else {
      assert items[..i] == items;
    }
  }
}
