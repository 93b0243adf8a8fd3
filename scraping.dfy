/** scraper/adapters/indeed/scraping.py: reading one job detail page into a Job
    record, the batch executor that opens job tabs a slice at a time, and
    `scrape_job`, one page per attempt under the retry policy. */
module Scraping {
  import opened Outcomes
  import opened Json
  import opened Browser
  import opened Selectors
  import Text
  import Utils
  import JsonLd
  import Salary
  import Discovery
  import RateLimit
  import Pagination
  import Config
  import Dom
  import Proxy
  import opened Batching

  // ---------------------------------------------------------------------------
  // The job id: the first non-blank "jk" value of the URL's query.

  /** The part of s before the first c; all of s when c does not occur. */
  function Before(s: string, c: char): (r: string)
    ensures |r| <= |s| && r == s[..|r|]
    ensures forall k :: 0 <= k < |r| ==> r[k] != c
    ensures |r| < |s| ==> s[|r|] == c
  {
    if s == [] || s[0] == c then []
    else
      var rest := Before(s[1..], c);
      assert [s[0]] + rest == s[..1 + |rest|];
      [s[0]] + rest
  }

  /** The part of s after the first c, or None when c does not occur. */
  function After(s: string, c: char): (r: Option<string>)
    ensures r.None? <==> forall k :: 0 <= k < |s| ==> s[k] != c
    ensures r.Some? ==> s == Before(s, c) + [c] + r.value
  {
    var b := Before(s, c);
    if |b| < |s| then
      assert s == b + [c] + s[|b| + 1..];
      Some(s[|b| + 1..])
    else None
  }

  /** `urlparse(url).query`: the fragment is cut off at the first '#', and the
      query is what follows the first '?' of the rest ("" when there is none). */
  function QueryOf(url: string): string {
    match After(Before(url, '#'), '?')
    case Some(q) => q
    case None => ""
  }

  /** The first value of the field `name` among "k=v" fields, skipping fields
      without '=' and blank values as `parse_qs` does. */
  function FirstValue(fields: seq<string>, name: string): (r: Option<string>)
    ensures r.Some? ==> (r.value != [] &&
      exists i :: 0 <= i < |fields| && Pagination.SplitPair(fields[i]) == Some((name, r.value)))
    ensures r.None? ==> forall i :: 0 <= i < |fields| ==>
      Pagination.SplitPair(fields[i]).None? || Pagination.SplitPair(fields[i]).value.0 != name ||
      Pagination.SplitPair(fields[i]).value.1 == []
  {
    if fields == [] then None
    else
      var rest := FirstValue(fields[1..], name);
      assert forall i :: 1 <= i < |fields| ==> fields[i] == fields[1..][i - 1];
      match Pagination.SplitPair(fields[0])
      case Some(kv) => if kv.0 == name && kv.1 != [] then Some(kv.1) else rest
      case None => rest
  }

  /** `parse_qs(urlparse(url).query).get("jk", ["unknown"])[0]`. */
  function JkOf(url: string): (id: string)
    ensures id != []
  {
    match FirstValue(Pagination.Split(QueryOf(url), '&'), "jk")
    case Some(v) => v
    case None => "unknown"
  }

  predicate NoneOf(s: string, a: char, b: char) {
    forall k :: 0 <= k < |s| ==> s[k] != a && s[k] != b
  }

  lemma BeforeAt(s: string, c: char, i: nat)
    requires i <= |s| && (i < |s| ==> s[i] == c)
    requires forall k :: 0 <= k < i ==> s[k] != c
    ensures Before(s, c) == s[..i]
  {
  }

  /** The query of `head?q` is q when head has neither '?' nor '#' and q has no '#'. */
  lemma QueryAfter(head: string, q: string)
    requires NoneOf(head, '?', '#')
    requires forall k :: 0 <= k < |q| ==> q[k] != '#'
    ensures QueryOf(head + "?" + q) == q
  {
    var url := head + "?" + q;
    forall k | 0 <= k < |url| ensures url[k] != '#' {
      if k < |head| {
        assert url[k] == head[k];
      } else if k > |head| {
        assert url[k] == q[k - |head| - 1];
      }
    }
    BeforeAt(url, '#', |url|);
    assert url[..|url|] == url;
    forall k | 0 <= k < |head| ensures url[k] != '?' {
      assert url[k] == head[k];
    }
    BeforeAt(url, '?', |head|);
    assert url[|head| + 1..] == q;
  }

  /** A query whose first field is `jk=<id>` with a non-empty id. */
  lemma {:induction false} JkFirstField(id: string, rest: string)
    requires id != [] && NoneOf(id, '&', '#')
    requires rest == [] || rest[0] == '&'
    ensures FirstValue(Pagination.Split("jk=" + id + rest, '&'), "jk") == Some(id)
  {
    var field := "jk=" + id;
    assert field == "jk" + "=" + id;
    Pagination.SplitPairAt("jk", id);
    assert forall k :: 0 <= k < |field| ==> field[k] != '&' by {
      forall k | 0 <= k < |field| ensures field[k] != '&' {
        if k >= 3 { assert field[k] == id[k - 3]; }
      }
    }
    if rest == [] {
      assert field + rest == field;
      Pagination.SplitPlain(field, '&');
    } else {
      assert field + rest == field + ['&'] + rest[1..];
      Pagination.SplitAt(field, '&', rest[1..]);
    }
  }

  const VIEW_PATH := BASE_URL + "/viewjob"

  lemma ViewPathPlain()
    ensures NoneOf(VIEW_PATH, '?', '#')
  {
  }

  /** Round trip with the URLs discovery builds: a view URL carrying a non-empty
      id free of '&' and '#', followed by nothing or by further '&' fields, gives
      that id back. */
  lemma JkOfViewUrl(id: string, suffix: string)
    requires id != [] && NoneOf(id, '&', '#')
    requires suffix == [] || suffix[0] == '&'
    requires forall k :: 0 <= k < |suffix| ==> suffix[k] != '#'
    ensures JkOf(BASE_URL + "/viewjob?jk=" + id + suffix) == id
  {
    var q := "jk=" + id + suffix;
    assert BASE_URL + "/viewjob?jk=" + id + suffix == VIEW_PATH + "?" + q;
    assert forall k :: 0 <= k < |q| ==> q[k] != '#' by {
      forall k | 0 <= k < |q| ensures q[k] != '#' {
        if 3 <= k < 3 + |id| { assert q[k] == id[k - 3]; }
        else if k >= 3 + |id| { assert q[k] == suffix[k - 3 - |id|]; }
      }
    }
    ViewPathPlain();
    QueryAfter(VIEW_PATH, q);
    JkFirstField(id, suffix);
  }

  /** A blank "jk" value is skipped and the next one is taken. */
  lemma BlankJkSkipped(id: string)
    requires id != [] && NoneOf(id, '&', '#')
    ensures JkOf(BASE_URL + "/viewjob?jk=&jk=" + id) == id
  {
    var q := "jk=&jk=" + id;
    assert BASE_URL + "/viewjob?jk=&jk=" + id == VIEW_PATH + "?" + q;
    assert forall k :: 0 <= k < |q| ==> q[k] != '#' by {
      forall k | 0 <= k < |q| ensures q[k] != '#' {
        if k >= 7 { assert q[k] == id[k - 7]; }
      }
    }
    ViewPathPlain();
    QueryAfter(VIEW_PATH, q);
    BlankFirstField(id);
  }

  lemma BlankFirstField(id: string)
    requires id != [] && NoneOf(id, '&', '#')
    ensures FirstValue(Pagination.Split("jk=&jk=" + id, '&'), "jk") == Some(id)
  {
    var second := "jk=" + id;
    assert "jk=&jk=" + id == "jk=" + ['&'] + second;
    Pagination.SplitAt("jk=", '&', second);
    JkFirstField(id, "");
    assert second + "" == second;
    assert "jk=" == "jk" + "=" + "";
    Pagination.SplitPairAt("jk", "");
  }

  /** A URL without a query has no id. */
  lemma NoQueryNoId(url: string)
    requires forall k :: 0 <= k < |url| ==> url[k] != '?'
    ensures JkOf(url) == "unknown"
  {
    var b := Before(url, '#');
    assert forall k :: 0 <= k < |b| ==> b[k] == url[k];
    Pagination.SplitPlain("", '&');
  }

  lemma FallbackSuffixPlain(v: Variant)
    ensures var suffix := FallbackSuffix(v);
      (suffix == [] || suffix[0] == '&') && forall k :: 0 <= k < |suffix| ==> suffix[k] != '#'
  {
  }

  /** A mosaic card's URL carries its jobkey through to the detail page. */
  lemma MosaicUrlId(env: Env, jk: string)
    requires jk != [] && NoneOf(jk, '&', '#')
    ensures JkOf(Discovery.MosaicUrl(env, JStr(jk))) == jk
  {
    JkOfViewUrl(jk, "");
    assert Discovery.MosaicUrl(env, JStr(jk)) == BASE_URL + "/viewjob?jk=" + jk + "";
  }

  /** So does a DOM card's fallback URL, in either variant. */
  lemma CardUrlId(jk: string, v: Variant)
    requires jk != [] && NoneOf(jk, '&', '#')
    ensures JkOf(Dom.CardUrl(jk, None, v)) == jk
  {
    FallbackSuffixPlain(v);
    JkOfViewUrl(jk, FallbackSuffix(v));
  }

  // ---------------------------------------------------------------------------
  // The Job record and the detail-page extractor.

  /** scraper/core/models.py `Job`. Company and description hold whatever the
      JSON-LD block held (the dataclass does not check its field types). */
  datatype Job = Job(
    id: string,
    title: string,
    company: Json,
    location: string,
    description: Json,
    source: string,
    url: string,
    salary: Option<string>,
    postedAt: Option<Json>)

  /** `json_ld["datePosted"]` when the block has one. */
  function PostedAt(jsonLd: Option<JsonLd.JsonLdDoc>): (r: Option<Json>)
    ensures r.Some? <==> JsonLd.HasKey(jsonLd, "datePosted")
    ensures r.Some? ==> r.value == jsonLd.value["datePosted"]
  {
    if JsonLd.HasKey(jsonLd, "datePosted") then Some(jsonLd.value["datePosted"]) else None
  }

  /** The detail page's description: the `#jobDescriptionText` container first,
      JSON-LD only when the container is absent; "" when counting raises or
      `inner_text` raises (more than one match). */
  function DetailDescription(root: Node, jsonLd: Option<JsonLd.JsonLdDoc>): (r: Json) {
    match Present(root, DESCRIPTION_SELECTOR_ALT)
    case None => JStr("")
    case Some(found) =>
      if found then
        JStr(match StrictText(root, DESCRIPTION_SELECTOR_ALT) case Some(t) => t case None => "")
      else if JsonLd.HasKey(jsonLd, "description") then jsonLd.value["description"]
      else JStr("")
  }

  /** The order is the reverse of `extract_description`'s: with one container on
      the page its text wins over a JSON-LD description, and JSON-LD is used only
      when no container matches. */
  lemma DescriptionOrder(root: Node, jsonLd: Option<JsonLd.JsonLdDoc>)
    ensures Locate(root, DESCRIPTION_SELECTOR_ALT) == Hits([]) ==>
      DetailDescription(root, jsonLd) ==
        (if JsonLd.HasKey(jsonLd, "description") then jsonLd.value["description"] else JStr(""))
    ensures (Locate(root, DESCRIPTION_SELECTOR_ALT).Hits? && |Locate(root, DESCRIPTION_SELECTOR_ALT).nodes| == 1) ==>
      DetailDescription(root, jsonLd) == JStr(Locate(root, DESCRIPTION_SELECTOR_ALT).nodes[0].text)
    ensures (Locate(root, DESCRIPTION_SELECTOR_ALT).Raised? ||
             (Locate(root, DESCRIPTION_SELECTOR_ALT).Hits? && |Locate(root, DESCRIPTION_SELECTOR_ALT).nodes| > 1)) ==>
      DetailDescription(root, jsonLd) == JStr("")
    ensures JsonLd.HasKey(jsonLd, "description") ==>
      JsonLd.ExtractDescription(root, jsonLd) == jsonLd.value["description"]
  {
  }

  /** `extract_job_from_page`: the record, or None when the title or the id is
      missing. A title that is not a string (a JSON-LD value of another type)
      makes `startswith` raise, which is caught and also gives None. */
  function ExtractJobFromPage(env: Env, page: Page, url: string): (r: Option<Job>)
    ensures r.Some? <==>
      JsonLd.ExtractTitle(page.root, JsonLd.ExtractJsonLd(env, page)).JStr? &&
      !Text.StartsWith(JsonLd.ExtractTitle(page.root, JsonLd.ExtractJsonLd(env, page)).s, "Unknown") &&
      JkOf(url) != "unknown"
    ensures r.Some? ==>
      var jsonLd := JsonLd.ExtractJsonLd(env, page);
      r.value.id == JkOf(url) && r.value.url == url && r.value.source == "indeed" &&
      JStr(r.value.title) == JsonLd.ExtractTitle(page.root, jsonLd) &&
      r.value.company == JsonLd.ExtractCompany(page.root, jsonLd) &&
      r.value.location == JsonLd.ExtractLocation(env, page.root, jsonLd) &&
      r.value.description == DetailDescription(page.root, jsonLd) &&
      r.value.salary == Salary.ExtractSalary(env, page, jsonLd) &&
      r.value.postedAt == PostedAt(jsonLd)
  {
    var id := JkOf(url);
    var jsonLd := JsonLd.ExtractJsonLd(env, page);
    var title := JsonLd.ExtractTitle(page.root, jsonLd);
    var company := JsonLd.ExtractCompany(page.root, jsonLd);
    var location := JsonLd.ExtractLocation(env, page.root, jsonLd);
    var salary := Salary.ExtractSalary(env, page, jsonLd);
    var description := DetailDescription(page.root, jsonLd);
    if !title.JStr? then None
    else if Text.StartsWith(title.s, "Unknown") || id == "unknown" then None
    else Some(Job(id, title.s, company, location, description, "indeed", url, salary, PostedAt(jsonLd)))
  }

  lemma SentinelTitle()
    ensures Text.StartsWith(Utils.Sentinel("title"), "Unknown")
  {
    assert Utils.Sentinel("title")[..7] == "Unknown";
  }

  /** No emitted record carries a sentinel: without a JSON-LD title and with every
      title selector missing, the page yields nothing. */
  lemma NoTitleNoJob(env: Env, page: Page, url: string)
    requires !JsonLd.HasKey(JsonLd.ExtractJsonLd(env, page), "title")
    requires forall j :: 0 <= j < |TITLE_SELECTORS| ==> Utils.SelectorText(page.root, TITLE_SELECTORS[j]).None?
    ensures ExtractJobFromPage(env, page, url).None?
  {
    Utils.SafeExtractAllMiss(page.root, TITLE_SELECTORS, "title");
    SentinelTitle();
  }

  /** A page with a JSON-LD title `t` (not starting with "Unknown") at a view URL
      with a proper id yields a record with that title and id, whatever the DOM
      holds. */
  lemma JsonLdRecord(env: Env, page: Page, id: string, suffix: string, t: string)
    requires id != [] && NoneOf(id, '&', '#') && id != "unknown"
    requires suffix == [] || suffix[0] == '&'
    requires forall k :: 0 <= k < |suffix| ==> suffix[k] != '#'
    requires JsonLd.HasKey(JsonLd.ExtractJsonLd(env, page), "title")
    requires JsonLd.ExtractJsonLd(env, page).value["title"] == JStr(t)
    requires !Text.StartsWith(t, "Unknown")
    ensures var r := ExtractJobFromPage(env, page, BASE_URL + "/viewjob?jk=" + id + suffix);
      r.Some? && r.value.id == id && r.value.title == t
  {
    JkOfViewUrl(id, suffix);
  }

  // ---------------------------------------------------------------------------
  // The batch executor.

  function DetailReader(env: Env): Reader<Page, Job> {
    Reader(Discovery.DetectBotChallenge, (page, url) => ExtractJobFromPage(env, page, url))
  }

  /** `max_concurrent` after the clamp: the modular executor forces 1 whenever
      a ScrapeOps key is set, whichever proxy provider is in use. */
  function EffectiveConcurrency(v: Variant, settings: Config.Settings, maxConcurrent: int): (c: int)
    ensures c <= maxConcurrent
    ensures c != maxConcurrent <==> ClampsForScrapeOps(v) && Config.ScrapeOpsKeySet(settings) && maxConcurrent > 1
    ensures c != maxConcurrent ==> c == 1
  {
    if ClampsForScrapeOps(v) && Config.ScrapeOpsKeySet(settings) && maxConcurrent > 1 then 1 else maxConcurrent
  }

  /** `scrape_jobs_batch`, whole: None when `range` raises (a step of 0). */
  function Batch(env: Env, v: Variant, settings: Config.Settings, urls: seq<string>, maxConcurrent: int,
                 tabs: Tabs<Page>): Option<Run<Job>>
  {
    var c := EffectiveConcurrency(v, settings, maxConcurrent);
    if c == 0 then None
    else if c < 0 then Some(Run([], []))
    else Some(RunFrom(v, DetailReader(env), tabs, urls, c, 0))
  }

  /** The navigation pass: `goto` on every opened tab; the modular executor
      scrolls each tab whose navigation succeeded. */
  method NavigateBatch(v: Variant, tabs: Tabs<Page>, live: seq<nat>) returns (trace: seq<TabEvent>)
    ensures trace == LoadEvents(v, tabs, live)
  {
    trace := [];
    var j := 0;
    while j < |live|
      invariant 0 <= j <= |live|
      invariant trace == LoadEvents(v, tabs, live[..j])
    {
      var t := live[j];
      var step := [Load(t)];
      if tabs.loads(t) && ScrollsInBatch(v) {
        var _ := Discovery.ScrollToLoadAllJobs(tabs.pageAt(t).feed);
        step := step + [Scroll(t)];
      }
      trace := trace + step;
      assert live[..j + 1][..j] == live[..j];
      j := j + 1;
    }
    assert live[..|live|] == live;
  }

  /** One slice [s, e): the open, navigation and read passes over its tabs. */
  method ScrapeSlice(rd: Reader<Page, Job>, v: Variant, urls: seq<string>, tabs: Tabs<Page>, s: nat, e: nat)
    returns (batchJobs: seq<Job>, trace: seq<TabEvent>)
    requires s <= e <= |urls|
    ensures batchJobs == JobsOf(rd, tabs, urls, Opened(tabs, s, e))
    ensures trace == BatchEvents(v, rd, tabs, Opened(tabs, s, e))
  {
    var live, opens := OpenBatch(tabs, s, e);
    OpenedShape(tabs, s, e);
    var loads := NavigateBatch(v, tabs, live);
    var closes;
    batchJobs, closes := ReadBatch(rd, tabs, urls, live);
    trace := opens + loads + closes;
  }

  /** The body of `scrape_jobs_batch` for a positive step: for each slice,
      open, navigate and read its tabs. */
  method RunBatches(rd: Reader<Page, Job>, v: Variant, urls: seq<string>, c: nat, tabs: Tabs<Page>)
    returns (found: seq<Job>, events: seq<TabEvent>)
    requires c > 0
    ensures Run(found, events) == RunFrom(v, rd, tabs, urls, c, 0)
  {
    ghost var whole := RunAcc(v, rd, tabs, urls, c, 0, Run([], []));
    found, events := [], [];
    var batchStart: nat := 0;
    while batchStart < |urls|
      invariant RunAcc(v, rd, tabs, urls, c, batchStart, Run(found, events)) == whole
      decreases |urls| - batchStart
    {
      var batchEnd := Min(batchStart + c, |urls|);
      var batchJobs, trace := ScrapeSlice(rd, v, urls, tabs, batchStart, batchEnd);
      found := found + batchJobs;
      events := events + trace;
      batchStart := batchStart + c;
    }
    RunAccEmpty(v, rd, tabs, urls, c, 0);
  }

  /** `scrape_jobs_batch`: open a slice of tabs, navigate them all, read them
      all, then the next slice. Returns the records and the tab events in
      order; None when `range` raises. */
  method ScrapeJobsBatch(env: Env, v: Variant, settings: Config.Settings, urls: seq<string>,
                         maxConcurrent: int, tabs: Tabs<Page>)
    returns (jobs: Option<seq<Job>>, events: seq<TabEvent>)
    ensures match Batch(env, v, settings, urls, maxConcurrent, tabs)
      case None => jobs.None? && events == []
      case Some(run) => jobs == Some(run.jobs) && events == run.events
  {
    var c := maxConcurrent;
    if ClampsForScrapeOps(v) && Config.ScrapeOpsKeySet(settings) && c > 1 {
      c := 1;
    }
    if c == 0 {
      return None, [];
    }
    if c < 0 {
      return Some([]), [];
    }
    var found;
    found, events := RunBatches(DetailReader(env), v, urls, c, tabs);
    jobs := Some(found);
  }

  // Properties of the batch executor.

  /** `scrape_jobs_batch` with a positive step: the records are those of the
      opened tabs in URL order, whatever the step, and at most one per URL. */
  lemma BatchJobs(env: Env, v: Variant, settings: Config.Settings, urls: seq<string>, maxConcurrent: int,
                  tabs: Tabs<Page>)
    requires EffectiveConcurrency(v, settings, maxConcurrent) > 0
    ensures Batch(env, v, settings, urls, maxConcurrent, tabs).Some?
    ensures Batch(env, v, settings, urls, maxConcurrent, tabs).value.jobs
         == JobsOf(DetailReader(env), tabs, urls, Opened(tabs, 0, |urls|))
    ensures |Batch(env, v, settings, urls, maxConcurrent, tabs).value.jobs| <= |urls|
  {
    RunJobsFlat(v, DetailReader(env), tabs, urls, EffectiveConcurrency(v, settings, maxConcurrent), 0);
    OpenedShape(tabs, 0, |urls|);
    JobsBound(DetailReader(env), tabs, urls, Opened(tabs, 0, |urls|));
  }

  /** Every record of a batch passed the detail extractor's checks: it comes
      from one of the URLs, carries that URL's id, which is not "unknown", a
      title not starting with "Unknown", and source "indeed". */
  lemma BatchJobsValid(env: Env, v: Variant, settings: Config.Settings, urls: seq<string>, maxConcurrent: int,
                       tabs: Tabs<Page>, x: Job)
    requires EffectiveConcurrency(v, settings, maxConcurrent) > 0
    requires Batch(env, v, settings, urls, maxConcurrent, tabs).Some?
    requires x in Batch(env, v, settings, urls, maxConcurrent, tabs).value.jobs
    ensures x.url in urls && x.id == JkOf(x.url) && x.id != "unknown"
    ensures !Text.StartsWith(x.title, "Unknown") && x.source == "indeed"
  {
    var rd := DetailReader(env);
    BatchJobs(env, v, settings, urls, maxConcurrent, tabs);
    JobsOfFrom(rd, tabs, urls, Opened(tabs, 0, |urls|), x);
    var idx := Opened(tabs, 0, |urls|);
    var k :| 0 <= k < |idx| && idx[k] < |urls| && !rd.bot(tabs.pageAt(idx[k])) &&
             rd.extract(tabs.pageAt(idx[k]), urls[idx[k]]) == Some(x);
    assert ExtractJobFromPage(env, tabs.pageAt(idx[k]), urls[idx[k]]) == Some(x);
  }

  /** The ScrapeOps clamp changes how many tabs are open at once, never which
      records come out. */
  lemma ClampKeepsJobs(env: Env, v: Variant, settings: Config.Settings, urls: seq<string>, maxConcurrent: int,
                       tabs: Tabs<Page>)
    requires maxConcurrent > 0
    ensures Batch(env, v, settings, urls, maxConcurrent, tabs).Some?
    ensures Batch(env, v, settings, urls, maxConcurrent, tabs).value.jobs
         == Batch(env, Monolithic, settings, urls, maxConcurrent, tabs).value.jobs
  {
    BatchJobs(env, v, settings, urls, maxConcurrent, tabs);
    BatchJobs(env, Monolithic, settings, urls, maxConcurrent, tabs);
  }

  /** The clamp looks at the ScrapeOps key, not at the provider in use: with
      the key set and the provider left at "none" (no proxy at all), the modular
      executor still opens one tab at a time. */
  lemma ClampWithoutScrapeOpsProxy(key: Option<string>, maxConcurrent: int)
    requires Config.Truthy(key) && maxConcurrent > 1
    ensures Proxy.GetProxyConfig(Config.Intended(key)) == Ok(None)
    ensures EffectiveConcurrency(Modular, Config.Intended(key), maxConcurrent) == 1
    ensures EffectiveConcurrency(Monolithic, Config.Intended(key), maxConcurrent) == maxConcurrent
  {
    Proxy.IntendedDefaultIsNoProxy(key);
  }

  /** Page-close obligations: a tab that opened is navigated once and closed
      once, or twice when it was flagged as a bot page; only the modular
      executor scrolls, and only a tab that loaded; a tab that failed to open
      gets no event at all. */
  lemma TabEventCounts(env: Env, v: Variant, settings: Config.Settings, urls: seq<string>, maxConcurrent: int,
                       tabs: Tabs<Page>, i: nat)
    requires EffectiveConcurrency(v, settings, maxConcurrent) > 0
    ensures Batch(env, v, settings, urls, maxConcurrent, tabs).Some?
    ensures var m := multiset(Batch(env, v, settings, urls, maxConcurrent, tabs).value.events);
      var live := i < |urls| && tabs.opens(i);
      m[Open(i)] == (if live then 1 else 0) &&
      m[Load(i)] == (if live then 1 else 0) &&
      m[Scroll(i)] == (if live && v == Modular && tabs.loads(i) then 1 else 0) &&
      m[Close(i)] == (if !live then 0 else if Discovery.DetectBotChallenge(tabs.pageAt(i)) then 2 else 1)
  {
    var rd := DetailReader(env);
    var idx := Opened(tabs, 0, |urls|);
    RunEventsFlat(v, rd, tabs, urls, EffectiveConcurrency(v, settings, maxConcurrent), 0);
    OpenedCount(tabs, 0, |urls|, i);
    PassCounts(v, rd, tabs, idx, i);
  }

  // ---------------------------------------------------------------------------
  // `scrape_job`: one detail page per attempt, under `with_retry()`.

  /** What attempt k of `scrape_job` meets: whether `new_page` and `goto`
      succeed or which error they raise (a Playwright error or a timeout is
      Retryable), and the page the tab then shows. */
  datatype Tries = Tries(newPage: nat -> Outcome<()>, goto: nat -> Outcome<()>, pageAt: nat -> Page)

  const BOT_DETECTED := "Bot detection triggered"
  const MISSING_FIELDS := "Missing critical job fields"
  /** The AttributeError of `title.startswith` on a JSON-LD title that is not a string. */
  const TITLE_NOT_TEXT := "title has no attribute 'startswith'"

  /** A failed step of an attempt, carried into the attempt's outcome. */
  function Failure<T>(o: Outcome<()>): (r: Outcome<T>)
    requires !o.Ok?
    ensures r.Retryable? == o.Retryable? && r.Fatal? == o.Fatal? && r.reason == o.reason
  {
    if o.Retryable? then Retryable(o.reason) else Fatal(o.reason)
  }

  /** One call of `scrape_job`'s body: the record, or the error it raises. */
  function JobAttempt(env: Env, tries: Tries, url: string, k: nat): Outcome<Job> {
    if !tries.newPage(k).Ok? then Failure(tries.newPage(k))
    else if !tries.goto(k).Ok? then Failure(tries.goto(k))
    else
      var page := tries.pageAt(k);
      if Discovery.DetectBotChallenge(page) then Fatal(BOT_DETECTED)
      else
        var jsonLd := JsonLd.ExtractJsonLd(env, page);
        var title := JsonLd.ExtractTitle(page.root, jsonLd);
        var id := JkOf(url);
        if !title.JStr? then Fatal(TITLE_NOT_TEXT)
        else if Text.StartsWith(title.s, "Unknown") || id == "unknown" then Fatal(MISSING_FIELDS)
        else
          Ok(Job(id, title.s, JsonLd.ExtractCompany(page.root, jsonLd), JsonLd.ExtractLocation(env, page.root, jsonLd),
                 JsonLd.ExtractDescription(page.root, jsonLd), "indeed", url,
                 Salary.ExtractSalary(env, page, jsonLd), PostedAt(jsonLd)))
  }

  function Attempts(env: Env, tries: Tries, url: string): nat -> Outcome<Job> {
    (k: nat) => JobAttempt(env, tries, url, k)
  }

  /** The tab events of attempt k: a page that opened is navigated and then
      closed in `finally`, whatever happened in between; a failed `new_page`
      leaves nothing to close. */
  function AttemptEvents(tries: Tries, k: nat): seq<TabEvent> {
    if tries.newPage(k).Ok? then [Open(k), Load(k), Close(k)] else []
  }

  function AttemptsEvents(tries: Tries, n: nat): seq<TabEvent> {
    if n == 0 then [] else AttemptsEvents(tries, n - 1) + AttemptEvents(tries, n - 1)
  }

  /** `scrape_job(context, url)` with the retry defaults (3 retries, 5 s base,
      10 s cap): the outcome of the retry run, the tab events of every attempt
      made and the sleeps between them. */
  method ScrapeJob(env: Env, tries: Tries, url: string, jitter: nat -> real)
    returns (r: Outcome<Job>, events: seq<TabEvent>, sleeps: seq<real>)
    requires forall k :: 0.0 <= jitter(k) <= 1.0
    ensures var run := RateLimit.RetryFrom(Attempts(env, tries, url), RateLimit.MAX_RETRIES, 0);
      r == run.result && events == AttemptsEvents(tries, run.calls) && |sleeps| == run.calls - 1
  {
    var calls;
    r, calls, sleeps := RateLimit.WithRetry(Attempts(env, tries, url), RateLimit.MAX_RETRIES,
                                           RateLimit.RETRY_BASE_DELAY, RateLimit.RETRY_MAX_DELAY, jitter);
    events := AttemptsEvents(tries, calls);
  }

  /** An attempt that reaches the page succeeds exactly when the batch
      extractor would give a record for it, and then gives the same record but
      for the description, which here is JSON-LD first. A failed `new_page` or
      `goto` passes its error on; every other failure is a plain Exception. */
  lemma AttemptAgreesWithExtractor(env: Env, tries: Tries, url: string, k: nat)
    ensures var r := JobAttempt(env, tries, url, k);
      var page := tries.pageAt(k);
      var e := ExtractJobFromPage(env, page, url);
      (r.Ok? <==> tries.newPage(k).Ok? && tries.goto(k).Ok? && !Discovery.DetectBotChallenge(page) && e.Some?) &&
      (r.Ok? ==> r.value == e.value.(description := JsonLd.ExtractDescription(page.root, JsonLd.ExtractJsonLd(env, page)))) &&
      (!tries.newPage(k).Ok? ==> r.Retryable? == tries.newPage(k).Retryable? && r.reason == tries.newPage(k).reason) &&
      (tries.newPage(k).Ok? && !tries.goto(k).Ok? ==> r.Retryable? == tries.goto(k).Retryable? && r.reason == tries.goto(k).reason) &&
      (tries.newPage(k).Ok? && tries.goto(k).Ok? && !r.Ok? ==> r.Fatal?)
  {
  }

  /** Bot detection and a missing title or id are not retried: after i
      retryable failures, an attempt that reaches such a page ends the run with
      its error, after i + 1 calls. So `scrape_job` does raise, its docstring
      notwithstanding. */
  lemma RejectedPageNotRetried(env: Env, tries: Tries, url: string, i: nat)
    requires i <= RateLimit.MAX_RETRIES
    requires forall j :: 0 <= j < i ==> JobAttempt(env, tries, url, j).Retryable?
    requires tries.newPage(i).Ok? && tries.goto(i).Ok?
    requires Discovery.DetectBotChallenge(tries.pageAt(i)) || ExtractJobFromPage(env, tries.pageAt(i), url).None?
    ensures var run := RateLimit.RetryFrom(Attempts(env, tries, url), RateLimit.MAX_RETRIES, 0);
      var page := tries.pageAt(i);
      var title := JsonLd.ExtractTitle(page.root, JsonLd.ExtractJsonLd(env, page));
      run.calls == i + 1 &&
      run.result == Fatal(if Discovery.DetectBotChallenge(page) then BOT_DETECTED
                          else if title.JStr? then MISSING_FIELDS else TITLE_NOT_TEXT)
  {
    var attempt := Attempts(env, tries, url);
    assert forall j :: 0 <= j < i ==> attempt(j).Retryable?;
    RateLimit.FatalNotRetried(attempt, RateLimit.MAX_RETRIES, i);
  }

  lemma AttemptOwnCounts(tries: Tries, k: nat, i: nat)
    ensures var m := multiset(AttemptEvents(tries, k));
      m[Open(i)] == m[Close(i)] == (if i == k && tries.newPage(k).Ok? then 1 else 0)
  {
    if tries.newPage(k).Ok? {
      assert multiset(AttemptEvents(tries, k)) == multiset{Open(k), Load(k), Close(k)};
    }
  }

  /** How often `ev` occurs in `s`. */
  function Occurs(s: seq<TabEvent>, ev: TabEvent): nat
    decreases |s|
  {
    if s == [] then 0 else Occurs(s[..|s| - 1], ev) + (if s[|s| - 1] == ev then 1 else 0)
  }

  lemma {:induction false} OccursAppend(a: seq<TabEvent>, b: seq<TabEvent>, ev: TabEvent)
    ensures Occurs(a + b, ev) == Occurs(a, ev) + Occurs(b, ev)
    decreases |b|
  {
    if b != [] {
      assert (a + b)[..|a + b| - 1] == a + b[..|b| - 1];
      OccursAppend(a, b[..|b| - 1], ev);
    } else {
      assert a + b == a;
    }
  }

  /** `Occurs` is the multiplicity in the bag of events. */
  lemma {:induction false} OccursCounts(s: seq<TabEvent>, ev: TabEvent)
    ensures multiset(s)[ev] == Occurs(s, ev)
    decreases |s|
  {
    if s != [] {
      OccursCounts(s[..|s| - 1], ev);
      assert s == s[..|s| - 1] + [s[|s| - 1]];
    }
  }

  /** How often one attempt's events hold a given Open or Close. */
  lemma AttemptOccurs(tries: Tries, k: nat, ev: TabEvent)
    requires ev.Open? || ev.Close?
    ensures Occurs(AttemptEvents(tries, k), ev) == (if ev.item == k && tries.newPage(k).Ok? then 1 else 0)
  {
    if tries.newPage(k).Ok? {
      var s := [Open(k), Load(k), Close(k)];
      assert s[..2] == [Open(k), Load(k)] && s[..2][..1] == [Open(k)] && s[..2][..1][..0] == [];
      assert Occurs([Open(k)], ev) == (if Open(k) == ev then 1 else 0);
      assert Occurs(s[..2], ev) == (if Open(k) == ev then 1 else 0);
    }
  }

  /** How often the first n attempts' events hold a given Open or Close. */
  lemma {:induction false} AttemptsOccurs(tries: Tries, n: nat, ev: TabEvent)
    requires ev.Open? || ev.Close?
    ensures Occurs(AttemptsEvents(tries, n), ev) == (if ev.item < n && tries.newPage(ev.item).Ok? then 1 else 0)
  {
    if n > 0 {
      var front, last := AttemptsEvents(tries, n - 1), AttemptEvents(tries, n - 1);
      AttemptsOccurs(tries, n - 1, ev);
      OccursAppend(front, last, ev);
      AttemptOccurs(tries, n - 1, ev);
    }
  }

  /** Each attempt that opened a page closes it exactly once; an attempt whose
      `new_page` failed neither opens nor closes one. */
  lemma ClosedOncePerAttempt(tries: Tries, n: nat, i: nat)
    ensures var m := multiset(AttemptsEvents(tries, n));
      m[Open(i)] == m[Close(i)] == (if i < n && tries.newPage(i).Ok? then 1 else 0)
  {
    AttemptsOccurs(tries, n, Open(i));
    AttemptsOccurs(tries, n, Close(i));
    OccursCounts(AttemptsEvents(tries, n), Open(i));
    OccursCounts(AttemptsEvents(tries, n), Close(i));
  }
}
