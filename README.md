# Indeed job scraper: a Dafny model of its core

This project models the decision logic of a Playwright-based Indeed job
scraper, from the pages the browser shows to the `Job` records it emits. It
also proves what that logic promises.

The model treats a loaded tab as a value (`Browser.Page`):
- a tree of elements, where each selector yields its matches or raises;
- the page HTML, or None when reading it raises;
- the measurements the tab yields while it is scrolled.

`json.loads`, `re.search` and Python's `repr` of containers are given
functions (`Json.Env`). JSON values are the `Json.Json` datatype.

Modules, following the package layout:

- `Utils`: the ordered selector fallback with its "Unknown <Field>" sentinel,
  and match-then-parse of embedded JSON (scraper/adapters/indeed/utils.py).
- `JsonLd`, `Salary`, `Mosaic`, `Dom`: the extractors under
  scraper/adapters/indeed/extraction/. The mosaic regex is written out
  concretely, so its non-greedy `};` cut can be stated and proved.
- `Pagination`: `build_serp_url`, with `quote_plus` over UTF-8 bytes and a
  decoder it is proved to round-trip with.
- `Discovery`: the bot-challenge classifier and the lazy-scroll loop.
  - The SERP frontier is the class `IndeedAdapter`. It owns the dedup set
    `seenJks` and updates it in place across calls.
  - The frontier is specified by the function `FrontierFrom`.
- `RateLimit`: the permit counter `RateLimiter` and the `with_retry` loop.
  - Jitter is an input in [0, 1].
  - Each attempt's outcome is an input: `Ok`, `Retryable` (a Playwright error
    or a timeout) or `Fatal` (any other exception).
- `Batching` and `Scraping`: the detail-page extractor, the batch executor
  and `scrape_job`.
  - Tab activity is recorded as a trace of `Open`, `Load`, `Scroll` and
    `Close` events, so close obligations can be counted.
- `Proxy` and `Config`: provider dispatch over an explicit settings record.
- `Manager` and `Window`: the browser lifecycle and the window list, as
  classes whose methods update their fields.
  - Playwright objects are numbered handles.
  - What the manager asks Playwright to do is recorded in a log.

The repository holds two copies of the adapter: the modular package, and the
older single-file scraper/adapters/indeed.py. The shared logic is modelled
once and takes a `Selectors.Variant` (`Modular` or `Monolithic`). The variant
selects the three behaviours that differ:
- the fallback URL suffix of a DOM card (`FallbackSuffix`);
- the ScrapeOps concurrency clamp (`ClampsForScrapeOps`);
- scrolling inside the batch executor (`ScrollsInBatch`).

Where the code and its own text disagree, the model follows the code:
- The DOM test at tests/test_dom_extraction.py:84 expects two jobs from its
  sample page. The first card selector that matches anything is used alone
  (scraper/adapters/indeed/extraction/dom.py:32-38). On that sample only the
  deep selector matches, and it matches the first card only, so the code
  yields one job. `Dom.SampleYieldsOne` proves this.
- `scrape_job`'s docstring says it never crashes
  (scraper/adapters/indeed/scraping.py:202). Yet it raises a plain Exception
  on a bot page and on missing fields (lines 217 and 244). The retry policy
  re-raises that exception at once. `Scraping.RejectedPageNotRetried` proves
  this.
- A bot-flagged tab in the batch executor is closed twice (lines 174 and
  186). `Scraping.TabEventCounts` counts both closes.
- The clamp tests whether a ScrapeOps key is set, not which proxy is in
  use. `Scraping.ClampWithoutScrapeOpsProxy` proves this.

## Model

| member | source | states |
|---|---|---|
| Utils.NormalizeSelector | scraper/adapters/indeed/utils.py:37-42 | a selector starting with "//" gets the "xpath=" prefix; every other selector, "xpath=..." included, is used unchanged |
| Utils.SafeExtract | scraper/adapters/indeed/utils.py:30-53 | the selector loop returns the value of the fallback chain, and the result is never blank after stripping |
| Utils.SafeExtractFirstHit | scraper/adapters/indeed/utils.py:35-47 | the first selector in list order whose first match has non-blank text decides the result; selectors after it are never consulted, so any other tail gives the same result |
| Utils.SafeExtractAllMiss | scraper/adapters/indeed/utils.py:48-53 | when every selector misses, matches only blank text or raises, the result is the sentinel "Unknown <Field>" |
| Utils.SafeExtractSources | scraper/adapters/indeed/utils.py:35-53 | the result is either one selector's non-blank stripped text or the sentinel |
| Utils.SafeExtractNeverBlank | scraper/adapters/indeed/utils.py:46-53 | the result never strips to ""; without a hit it starts with "Unknown" |
| Utils.HitIsStripped | scraper/adapters/indeed/utils.py:44-47 | a hit is the stripped text of its selector's first match, and it is non-empty |
| Utils.ExtractJsonFromScript | scraper/adapters/indeed/utils.py:15-27 | no match gives None; a match gives the parse of capture group 1, which is None when that text is not JSON |
| Text.StripByEmpty | scraper/adapters/indeed/utils.py:46 | `text.strip()` is empty exactly when every character is whitespace |
| Text.StripByIdempotent | scraper/adapters/indeed/utils.py:47 | stripping a stripped string changes nothing |
| Text.Contains | scraper/adapters/indeed/discovery.py:43 | `needle in s` holds exactly when the needle occurs at some position of s |
| Text.IntToStringRoundTrip | scraper/adapters/indeed/extraction/salary.py:26 | the decimal rendering of an integer reads back to that integer |
| Browser.StrictText | scraper/adapters/indeed/extraction/json_ld.py:82-86 | `inner_text()` without `.first` gives text only when exactly one element matches |
| JsonLd.FirstJobPostingAt | scraper/adapters/indeed/extraction/json_ld.py:29-36 | the first script in document order that parses to an object with "@type" "JobPosting" is returned; earlier scripts that do not parse, or parse to anything else, are skipped |
| JsonLd.FirstJobPosting | scraper/adapters/indeed/extraction/json_ld.py:28-41 | `extract_json_ld` over the scripts in document order; what it returns is stated by `FirstJobPostingAt` and `FirstJobPostingNone` |
| JsonLd.FirstJobPostingNone | scraper/adapters/indeed/extraction/json_ld.py:29-41 | the result is None exactly when no script qualifies; otherwise it is a JobPosting object parsed from one of the scripts |
| JsonLd.TitlePrecedence | scraper/adapters/indeed/extraction/json_ld.py:44-49 | a JSON-LD title is returned verbatim and the DOM is not read; without one the title is the fallback chain over TITLE_SELECTORS |
| JsonLd.ExtractTitle | scraper/adapters/indeed/extraction/json_ld.py:44-49 | `extract_title`: the JSON-LD "title" when present, else the selector chain; stated by `TitlePrecedence` |
| JsonLd.CompanySource | scraper/adapters/indeed/extraction/json_ld.py:52-59 | the company is hiringOrganization.name only when hiringOrganization is an object with a "name" key; every other shape falls through to the fallback chain |
| JsonLd.ExtractCompany | scraper/adapters/indeed/extraction/json_ld.py:52-59 | `extract_company`: hiringOrganization.name when it is an object holding "name", else the selector chain; stated by `CompanySource` |
| JsonLd.JoinStripped | scraper/adapters/indeed/extraction/json_ld.py:71 | `f"{city}, {region}".strip(", ")` joins two parts with ", " and gives the present part alone when the other is empty |
| JsonLd.LocationFromAddress | scraper/adapters/indeed/extraction/json_ld.py:64-71 | with an address object whose city and region strings have no leading or trailing ',' or ' ', the location is "city, region", city alone, region alone, or "" when both are missing |
| JsonLd.LocationFallback | scraper/adapters/indeed/extraction/json_ld.py:64-73 | the location uses the fallback chain only when there is no address object; an empty address gives "", never a sentinel |
| JsonLd.FormatAddress | scraper/adapters/indeed/extraction/json_ld.py:69-71 | the address object rendered as `f"{city}, {region}".strip(", ")`; its result is stated by `JoinStripped` and `LocationFromAddress` |
| JsonLd.ExtractLocation | scraper/adapters/indeed/extraction/json_ld.py:62-73 | `extract_location`: the formatted address when jobLocation.address is an object, else the selector chain; stated by `LocationFromAddress` and `LocationFallback` |
| JsonLd.ExtractDescription | scraper/adapters/indeed/extraction/json_ld.py:76-89 | the JSON-LD description when present, else the unstripped text of the single `div#jobDescriptionText`, else "" |
| Salary.StructuredSalary | scraper/adapters/indeed/extraction/salary.py:17-26 | a structured salary exists exactly when baseSalary.value is an object with truthy minValue and maxValue |
| Salary.FirstPatternMatch | scraper/adapters/indeed/extraction/salary.py:29-35 | the result is the match of some pattern, and it is None exactly when no pattern matches |
| Salary.StructuredWins | scraper/adapters/indeed/extraction/salary.py:17-30 | a structured salary is the answer, and the page content is then not read: any other page gives the same answer |
| Salary.StructuredFormat | scraper/adapters/indeed/extraction/salary.py:19-26 | numeric bounds give "<cur><min> - <cur><max>" in decimal; a zero bound gives no structured salary |
| Salary.PatternFallback | scraper/adapters/indeed/extraction/salary.py:29-39 | without a structured salary, the first pattern in SALARY_PATTERNS order that matches gives the matched text; unreadable HTML gives None |
| Salary.ExtractSalary | scraper/adapters/indeed/extraction/salary.py:15-39 | `extract_salary`: the structured salary first, else the first salary pattern found in the HTML, else None; stated by `StructuredWins`, `StructuredFormat` and `PatternFallback` |
| Mosaic.SkipSpace | scraper/adapters/indeed/extraction/mosaic.py:15-17 | `\s*` stops at the first non-whitespace character |
| Mosaic.FindClose | scraper/adapters/indeed/extraction/mosaic.py:15-17 | `.*?};` ends at the first "};" at or after the start, and at no earlier position |
| Mosaic.CaptureLeftmost | scraper/adapters/indeed/extraction/mosaic.py:27 | `re.search` returns the match at the leftmost position where one starts |
| Mosaic.MatchShape | scraper/adapters/indeed/extraction/mosaic.py:15-17 | a match is one `{...}` block that contains no "};" |
| Mosaic.CaptureShape | scraper/adapters/indeed/extraction/mosaic.py:15-27 | every capture is one `{...}` block with no "};", so an object whose text holds "};" is cut short |
| Mosaic.CaptureEmbedded | scraper/adapters/indeed/extraction/mosaic.py:15-27 | a page starting with the assignment of a braced object with no "};" before its last brace yields exactly that object |
| Mosaic.CardsOf | scraper/adapters/indeed/extraction/mosaic.py:29-38 | a result other than [] is the value of metaData.mosaicProviderJobCardsModel.results, reached through objects only |
| Mosaic.MosaicResults | scraper/adapters/indeed/extraction/mosaic.py:27-38 | a well-formed page hands back its results list unchanged |
| Mosaic.MosaicMisses | scraper/adapters/indeed/extraction/mosaic.py:29-41 | unreadable HTML, no match, or a capture that is not JSON all give [] |
| Mosaic.ExtractMosaicData | scraper/adapters/indeed/extraction/mosaic.py:20-41 | `extract_mosaic_data`: the results list of the captured mosaic JSON, [] when the HTML is unreadable or the path is missing; stated by `MosaicResults` and `MosaicMisses` |
| Dom.CardUrl | scraper/adapters/indeed/extraction/dom.py:61-70 | an href starting with "/" is made absolute; any other non-empty href is kept; a missing or empty href gives the viewjob URL of the id plus the variant's suffix |
| Dom.ReadCard | scraper/adapters/indeed/extraction/dom.py:44-94 | one pass of the card loop yields exactly the card's entry as `CardJobOf` gives it, whose rules the four `Card*` lemmas below state; an entry has a non-empty id |
| Dom.CardSkipped | scraper/adapters/indeed/extraction/dom.py:50-94 | a card yields nothing exactly when it has no `a[data-jk]` link, the first link's data-jk is missing or empty, or the title, company or location query raises |
| Dom.CardIdentity | scraper/adapters/indeed/extraction/dom.py:55-70 | an entry's id is the first link's data-jk, and its URL is built from that link's href by `CardUrl` |
| Dom.CardTitleRule | scraper/adapters/indeed/extraction/dom.py:72-78 | the title is the non-empty `title` attribute of the first title span when there is one, and the link's text otherwise |
| Dom.CardOptionalFields | scraper/adapters/indeed/extraction/dom.py:80-88 | company and location are each present exactly when their element exists, and are then the first such element's text |
| Dom.CardJobOf | scraper/adapters/indeed/extraction/dom.py:50-94 | the entry one card yields or None; its rules are stated by `CardSkipped`, `CardIdentity`, `CardTitleRule` and `CardOptionalFields` |
| Dom.ExtractJobsFromDom | scraper/adapters/indeed/extraction/dom.py:22-100 | the selector loop and the card loop compute the entries of the first matching selector's cards |
| Dom.DomJobs | scraper/adapters/indeed/extraction/dom.py:22-100 | the entries of the first card selector that matches, [] when the lookup raises; the method `ExtractJobsFromDom` is proved to compute it |
| Dom.PickFirstMatching | scraper/adapters/indeed/extraction/dom.py:32-38 | the first card selector matching at least one element is used alone, even when its cards yield nothing |
| Dom.PickNone | scraper/adapters/indeed/extraction/dom.py:40-42 | when no card selector matches, there are no cards |
| Dom.HarvestAppend | scraper/adapters/indeed/extraction/dom.py:44-94 | cards are independent: the entries of two card lists are each list's entries, in card order |
| Dom.HarvestShape | scraper/adapters/indeed/extraction/dom.py:50-58 | at most one entry per card, each with a non-empty id, each produced by one of the cards |
| Dom.SampleYieldsOne | scraper/adapters/indeed/extraction/dom.py:32-38 | the test sample page yields one entry (the H&M card), not two |
| Pagination.Utf8Char | scraper/adapters/indeed/pagination.py:20 | a character is 1 to 4 UTF-8 bytes; ASCII is its single byte, and every other character uses only bytes >= 128 |
| Pagination.QuotePlus | scraper/adapters/indeed/pagination.py:20 | an encoded value holds no raw '&', '=' or space |
| Pagination.QuoteByteRoundTrip | scraper/adapters/indeed/pagination.py:20 | decoding one encoded byte gives that byte back |
| Pagination.QuotePlusBytesRoundTrip | scraper/adapters/indeed/pagination.py:20 | `unquote_plus` inverts the byte-level encoding |
| Pagination.QuotePlusRoundTrip | scraper/adapters/indeed/pagination.py:20 | decoding `quote_plus(s)` gives the UTF-8 bytes of s |
| Pagination.UrlEncode | scraper/adapters/indeed/pagination.py:20 | `urllib.parse.urlencode` of the parameter pairs; stated by `UrlEncodeSeparable` and `UrlEncodeRoundTrip` |
| Pagination.UrlEncodeSeparable | scraper/adapters/indeed/pagination.py:14-20 | the encoded query splits on '&' into one piece per pair, in order |
| Pagination.UrlEncodeRoundTrip | scraper/adapters/indeed/pagination.py:20 | decoding `urlencode(pairs)` gives back every name and value, in order |
| Pagination.BuildSerpUrl | scraper/adapters/indeed/pagination.py:9-20 | `build_serp_url`; stated by `SerpUrlRoundTrip`, `SameUrlSameStart` and `DistinctPages` |
| Pagination.SerpUrlRoundTrip | scraper/adapters/indeed/pagination.py:9-20 | the URL is SEARCH_URL + "?" + a query that decodes to q, l, sort=date, start=page*per-page, in that order |
| Pagination.SameUrlSameStart | scraper/adapters/indeed/pagination.py:13-20 | equal queries for one query and location mean equal start offsets |
| Pagination.DistinctPages | scraper/adapters/indeed/pagination.py:13-20 | with a positive page size, different page numbers give different URLs |
| Discovery.CaptchaScan | scraper/adapters/indeed/discovery.py:32-35 | the scan reports "no CAPTCHA" exactly when every CAPTCHA selector answers absent |
| Discovery.AnyKeyword | scraper/adapters/indeed/discovery.py:43 | true exactly when some blocking keyword occurs in the text |
| Discovery.CaptchaFlags | scraper/adapters/indeed/discovery.py:32-35 | a present CAPTCHA element flags the page |
| Discovery.KeywordRule | scraper/adapters/indeed/discovery.py:38-47 | with no CAPTCHA and the job-cards container present the page is never flagged, whatever its text; with the container absent, the page is flagged exactly when a keyword occurs in the lower-cased HTML |
| Discovery.DetectionErrors | scraper/adapters/indeed/discovery.py:48-50 | a raising CAPTCHA query, container query or content read gives False |
| Discovery.DetectBotChallenge | scraper/adapters/indeed/discovery.py:30-50 | `detect_bot_challenge`: a CAPTCHA selector hit, or blocking keywords on a page without job cards, with every error read as False; stated by `CaptchaFlags`, `KeywordRule` and `DetectionErrors` |
| Discovery.Downs | scraper/adapters/indeed/discovery.py:65-75 | the downward scroll positions are 300, 600, ... |
| Discovery.ScrollToLoadAllJobs | scraper/adapters/indeed/discovery.py:53-108 | the loop issues the scroll positions of the run read off the measurements |
| Discovery.ScrollBounds | scraper/adapters/indeed/discovery.py:72-98 | at most 50 downward steps; the final scroll to the top is skipped only when a measurement raised |
| Discovery.ScrollStopRule | scraper/adapters/indeed/discovery.py:87-94 | the loop stops early exactly at the first step that is at the bottom with a re-measured height equal to the last recorded one |
| Discovery.ScrollOfShape | scraper/adapters/indeed/discovery.py:53-102 | a run from a readable start makes 1 to 50 downward steps, and an early stop happens at its first stopping step |
| Discovery.AdapterCrawl | scraper/adapters/indeed/discovery.py:125-169 | page k is fetched at `build_serp_url(query, location, k)`, screened by `detect_bot_challenge` and read for mosaic or DOM cards |
| Discovery.MosaicGather | scraper/adapters/indeed/discovery.py:151-157 | the mosaic card loop of one page, looking jobkeys up as a Python set does (`true` is `1`); stated by `MosaicGatherDedup`, `MosaicTrueIsOne` and `MosaicFailureSticks` |
| Discovery.MosaicGatherDedup | scraper/adapters/indeed/discovery.py:151-157 | each mosaic URL comes with its jobkey, shown as the card wrote it; the keys, compared as Python's `==` compares them, were not in the set, are pairwise distinct, and the set grows by exactly them |
| Discovery.MosaicTrueIsOne | scraper/adapters/indeed/discovery.py:151-156 | cards with jobkeys `1` and `true` give one URL, for whichever comes first and in its own spelling |
| Json.PyKeyEq | scraper/adapters/indeed/discovery.py:153-154 | two hashable values get the same dedup key exactly when Python's `==` finds them equal: booleans equal the integers 1 and 0, anything else only the same kind with the same contents |
| Discovery.DomGather | scraper/adapters/indeed/discovery.py:162-169 | the DOM card loop of one page; stated by `DomGatherDedup` |
| Discovery.DomGatherDedup | scraper/adapters/indeed/discovery.py:162-169 | the same for DOM entries, and the DOM loop never fails |
| Discovery.PageGatherDedup | scraper/adapters/indeed/discovery.py:146-169 | one page adds one new, distinct key per URL to the set |
| Discovery.AdapterCrawlSound | scraper/adapters/indeed/discovery.py:146-169 | every page the adapter reads extends the set by one new key per URL |
| Discovery.StepAt | scraper/adapters/indeed/discovery.py:129-176 | one turn of the page loop; its outcomes are stated by `StepReasons` and `StepShape` |
| Discovery.StepReasons | scraper/adapters/indeed/discovery.py:136-176 | the loop goes on from a page exactly when it was loaded, not flagged and its collection succeeded with a new URL; it stops Blocked exactly on a flagged page, NoNew exactly when the collection succeeded with nothing new, Failed exactly when `goto` or the collection raised; one page never gives Ceiling |
| Discovery.StepShape | scraper/adapters/indeed/discovery.py:130-176 | a page that lets the loop go on was loaded, was not flagged and gave at least one URL; a Blocked stop comes from a flagged page |
| Discovery.FrontierDedup | scraper/adapters/indeed/discovery.py:125-176 | over the whole loop: one key per URL, none in the starting set, no two equal under Python's `==`, and the set grows by exactly those keys |
| Discovery.DiscoveryDedup | scraper/adapters/indeed/adapter.py:44-53 | from whatever set earlier calls left, no jobkey is handed out twice over the adapter's life, two keys counting as the same when Python's `==` says so (`1` and `true`) |
| Discovery.FrontierDistinct | scraper/adapters/indeed/discovery.py:125-131 | with distinct URLs per page, no SERP URL is fetched twice |
| Discovery.AdapterSerpInjective | scraper/adapters/indeed/discovery.py:127-129 | the adapter's SERP URLs differ for different page numbers |
| Discovery.DiscoveryPages | scraper/adapters/indeed/discovery.py:125-176 | pages 0, 1, ... are fetched in order, 1 to 5 of them, each at its own URL |
| Discovery.FrontierFrom | scraper/adapters/indeed/discovery.py:125-176 | the page loop from page k with a dedup set; stated by the `Frontier*` lemmas |
| Discovery.FrontierGo | scraper/adapters/indeed/discovery.py:125-176 | after a page that lets the loop go on, the loop from page k is that page followed by the loop from page k + 1, with the same stop reason |
| Discovery.FrontierHalt | scraper/adapters/indeed/discovery.py:125-176 | a page that ends the loop is the only page read, and its stop reason is the loop's |
| Discovery.FrontierUrls | scraper/adapters/indeed/discovery.py:125-131 | from page k, the i-th fetched URL is that of page k + i, and at most 5 - k pages are fetched |
| Discovery.FrontierProductive | scraper/adapters/indeed/discovery.py:136-176 | every page before the last was loaded, not flagged, and its collection from the set held when it was read succeeded with at least one URL |
| Discovery.FrontierLast | scraper/adapters/indeed/discovery.py:136-174 | the last page read explains the stop reason: flagged for Blocked, nothing new from the set held then for NoNew, a raising `goto` or collection for Failed |
| Discovery.FrontierCount | scraper/adapters/indeed/discovery.py:125-176 | every page but the last gave at least one URL, and a loop stopped by the ceiling read every page from k |
| Discovery.FrontierStops | scraper/adapters/indeed/discovery.py:125-176 | every page before the last was loaded, not flagged, and its collection from the set held then succeeded with at least one URL; the last page was flagged for Blocked, succeeded with nothing new for NoNew, or had `goto` or the collection raise for Failed; Ceiling means all pages from k were read, each giving a URL |
| Discovery.MosaicExclusive | scraper/adapters/indeed/discovery.py:146-169 | with truthy mosaic data the DOM is not consulted, even when no card is new |
| Discovery.AttemptOf | scraper/adapters/indeed/discovery.py:178-185 | once the tab opens, a call returns the URLs gathered; only a failed `new_page` ends it with an error |
| Discovery.RetrySeesOnlyOpen | scraper/adapters/indeed/discovery.py:123-185 | retrying `discover_jobs` is retrying its `new_page` alone: same call count, same outcome |
| Discovery.MosaicFailureSticks | scraper/adapters/indeed/discovery.py:151-157 | a card that raises ends the card loop; the cards after it change nothing |
| Discovery.IndeedAdapter.constructor | scraper/adapters/indeed/adapter.py:38-44 | a new adapter keeps its query and location and starts with an empty dedup set |
| Discovery.IndeedAdapter.CollectMosaic | scraper/adapters/indeed/discovery.py:151-157 | the mosaic card loop, updating the set in place, computes the mosaic gather |
| Discovery.IndeedAdapter.CollectDom | scraper/adapters/indeed/discovery.py:162-169 | the DOM entry loop, updating the set in place, computes the DOM gather |
| Discovery.IndeedAdapter.VisitPage | scraper/adapters/indeed/discovery.py:130-176 | one pass of the page loop body computes that page's step, and the set is the step's set |
| Discovery.IndeedAdapter.CrawlPages | scraper/adapters/indeed/discovery.py:125-176 | the page loop computes the frontier from page 0 and leaves the set where the frontier ends |
| Discovery.IndeedAdapter.DiscoverJobs | scraper/adapters/indeed/discovery.py:111-185 | under the retry policy, a failed open returns its error and leaves the set alone; an open tab returns the frontier's URLs and the set it reaches |
| RateLimit.RateLimiter.constructor | scraper/core/rate_limit.py:19-20 | a limiter starts with all of its permits free |
| RateLimit.RateLimiter.Acquire | scraper/core/rate_limit.py:22-23 | a permit is taken exactly when one is free |
| RateLimit.RateLimiter.Release | scraper/core/rate_limit.py:25-26 | release returns one permit |
| RateLimit.RateLimiter.Guarded | scraper/core/rate_limit.py:28-33 | `async with` gives back its permit on every exit path, error or not, and passes the body's outcome on |
| RateLimit.GlobalLimiters | scraper/core/rate_limit.py:37-38 | the page limiter has 5 permits and the SERP limiter 1 |
| RateLimit.Backoff | scraper/core/rate_limit.py:66 | the delay is min(base * 2^k, max) |
| RateLimit.WithRetry | scraper/core/rate_limit.py:41-84 | the loop ends as the retry policy says, and sleeps once before each retry by the backoff plus its jitter |
| RateLimit.RetryFrom | scraper/core/rate_limit.py:55-80 | the retry loop from retry k; stated by `RetryShape`, `FirstCallWins`, `FatalNotRetried` and `RetryAfterFailures` |
| RateLimit.RetryShape | scraper/core/rate_limit.py:55-64 | the result is the last call's outcome; every earlier call failed with a retryable error; there are at most max_retries + 1 calls; a retryable result means the retries ran out |
| RateLimit.FirstCallWins | scraper/core/rate_limit.py:55-58 | a first-call success is returned unchanged after one call |
| RateLimit.FatalNotRetried | scraper/core/rate_limit.py:77-80 | a non-retryable error is re-raised on its first occurrence |
| RateLimit.RetryAfterFailures | scraper/core/rate_limit.py:59-76 | retryable failures only move the run on to the next attempt |
| RateLimit.DefaultSchedule | scraper/core/rate_limit.py:66-68 | with 5 s base and 10 s cap the sleeps lie in [5, 7.5], then [10, 15] |
| RateLimit.SleepBounds | scraper/core/rate_limit.py:66-68 | every sleep lies between the capped delay and 1.5 times it |
| Proxy.Registry | scraper/browser/proxy.py:138-144 | exactly the five registered names are found, and "none" is the no-proxy provider |
| Proxy.DisplayNamesDistinct | scraper/browser/proxy.py:37-134 | the five `get_name` results are pairwise distinct: two providers have the same name exactly when they are the same provider |
| Proxy.KeyedConfig | scraper/browser/proxy.py:47-57 | a keyed service gives no proxy without its key and its fixed configuration with the key in place with one; reading an undeclared key raises |
| Proxy.GenericConfig | scraper/browser/proxy.py:93-107 | a generic proxy configuration carries PROXY_SERVER as its server |
| Proxy.GetConfig | scraper/browser/proxy.py:30-131 | "none" gives no proxy; every configuration has a server; the keyed services give exactly server, username and password |
| Proxy.GetProxyConfig | scraper/browser/proxy.py:147-177 | a missing or None PROXY_PROVIDER raises; every configuration returned has a server |
| Proxy.LowerIdempotent | scraper/browser/proxy.py:162 | lower-casing twice is lower-casing once |
| Proxy.ProviderDispatch | scraper/browser/proxy.py:162-177 | the name is matched case-insensitively; an unregistered name and "none" give no proxy; a registered one gives that provider's configuration |
| Proxy.KeyedProviders | scraper/browser/proxy.py:47-131 | ScrapeOps, ScraperAPI and ZenRows give no proxy without a key, else their fixed server and credential with the key in its place |
| Proxy.GenericShape | scraper/browser/proxy.py:93-107 | the generic proxy carries its server, plus a username or password exactly when that setting is non-empty |
| Proxy.ShippedSettingsRaise | scraper/browser/proxy.py:162 | with the settings class as shipped every call raises, since PROXY_PROVIDER is not declared |
| Proxy.DeclaredNeverRaises | scraper/browser/proxy.py:147-177 | with the proxy attributes declared no provider raises |
| Proxy.IntendedDefaultIsNoProxy | scraper/browser/proxy.py:155-156 | with the provider defaulting to "none" the result is no proxy |
| Config.Attr | scraper/config/settings.py:8-40 | an attribute read raises unless the setting is declared; SCRAPEOPS_API_KEY always is |
| Config.Shipped | scraper/config/settings.py:26-40 | the shipped defaults: 5 pages, 1 SERP, 3 retries, and no proxy attributes |
| Config.Intended | scraper/browser/proxy.py:155-160 | the intended settings declare every proxy attribute, with the provider "none" |
| Batching.OpenedShape | scraper/adapters/indeed/scraping.py:144-150 | only positions of the slice whose tab opened are listed, each once, in order |
| Batching.OpenedComplete | scraper/adapters/indeed/scraping.py:144-150 | every position of the slice whose tab opened is listed |
| Batching.TabJob | scraper/adapters/indeed/scraping.py:169-186 | a tab contributes at most one record, and only when it is not flagged and the extractor accepts it |
| Batching.JobsBound | scraper/adapters/indeed/scraping.py:169-180 | at most one record per tab |
| Batching.JobsOfFrom | scraper/adapters/indeed/scraping.py:172-180 | every record comes from an unflagged tab whose extraction gave it |
| Batching.SliceShape | scraper/adapters/indeed/scraping.py:133-137 | the slices start at the first position, follow each other without gap or overlap, hold C URLs each except the last, which holds 1 to C and ends at N |
| Batching.SlicesOfTwelve | scraper/adapters/indeed/scraping.py:133-137 | 12 URLs with C = 5 give slices of 5, 5 and 2 |
| Batching.OpenBatch | scraper/adapters/indeed/scraping.py:144-150 | the open pass keeps the positions whose tab opened, with one Open event each |
| Batching.ReadBatch | scraper/adapters/indeed/scraping.py:169-186 | the read pass collects the records of the listed tabs, with their Close events |
| Batching.RunJobsFlat | scraper/adapters/indeed/scraping.py:133-186 | the records of the whole run are those of all opened tabs in URL order, whatever the slice size |
| Batching.RunEventsFlat | scraper/adapters/indeed/scraping.py:133-186 | the events of the whole run, as a bag, are those of one slice holding every opened tab |
| Batching.PassCounts | scraper/adapters/indeed/scraping.py:144-186 | a listed tab is opened once, loaded once, scrolled once when the variant scrolls and the load succeeded, and closed once, or twice when flagged |
| Batching.OpenCounts | scraper/adapters/indeed/scraping.py:144-150 | the open pass names each listed tab once |
| Batching.LoadCounts | scraper/adapters/indeed/scraping.py:153-166 | the navigation pass loads each listed tab once and scrolls it when the variant scrolls and the load succeeded |
| Batching.CloseCounts | scraper/adapters/indeed/scraping.py:169-186 | the read pass closes each listed tab once, or twice when flagged |
| Batching.OtherTabsUnaffected | scraper/adapters/indeed/scraping.py:144-186 | whatever happens to one tab, the records of all other tabs are kept, in order |
| Scraping.Before | scraper/adapters/indeed/scraping.py:46 | the text before the first separator, which it does not contain |
| Scraping.After | scraper/adapters/indeed/scraping.py:46 | the text after the first separator, and None exactly when there is none |
| Scraping.FirstValue | scraper/adapters/indeed/scraping.py:47-48 | the first non-blank value of the field among the pairs, and None only when there is none |
| Scraping.JkOf | scraper/adapters/indeed/scraping.py:46-48 | the job id is never empty |
| Scraping.QueryAfter | scraper/adapters/indeed/scraping.py:46 | the query of `head?q` is q |
| Scraping.JkOfViewUrl | scraper/adapters/indeed/scraping.py:46-48 | a viewjob URL carrying an id gives that id back |
| Scraping.BlankJkSkipped | scraper/adapters/indeed/scraping.py:47-48 | a blank jk value is skipped and the next one taken |
| Scraping.NoQueryNoId | scraper/adapters/indeed/scraping.py:48 | a URL without a query has the id "unknown" |
| Scraping.MosaicUrlId | scraper/adapters/indeed/discovery.py:155 | a mosaic card's URL carries its jobkey through to the detail page |
| Scraping.CardUrlId | scraper/adapters/indeed/extraction/dom.py:68-70 | a DOM card's fallback URL carries its id through, in either variant |
| Scraping.PostedAt | scraper/adapters/indeed/scraping.py:75-77 | posted_at is the JSON-LD datePosted exactly when the block has one |
| Scraping.DescriptionOrder | scraper/adapters/indeed/scraping.py:59-72 | the single container's text wins over JSON-LD, JSON-LD is used only when no container matches, and several containers give ""; `extract_description` has the reverse order |
| Scraping.ExtractJobFromPage | scraper/adapters/indeed/scraping.py:32-100 | a record is emitted exactly when the title is a string not starting with "Unknown" and the id is not "unknown"; it carries the input URL, source "indeed" and each field's extractor |
| Scraping.SentinelTitle | scraper/adapters/indeed/scraping.py:80 | the title sentinel starts with "Unknown" |
| Scraping.NoTitleNoJob | scraper/adapters/indeed/scraping.py:80-82 | a page with no title anywhere yields no record |
| Scraping.JsonLdRecord | scraper/adapters/indeed/scraping.py:44-96 | a JSON-LD title and a viewjob id give a record with that title and id, whatever the DOM |
| Scraping.EffectiveConcurrency | scraper/adapters/indeed/scraping.py:119-123 | the batch size changes exactly when the variant clamps, a ScrapeOps key is set and it exceeds 1, and it is then 1 |
| Scraping.NavigateBatch | scraper/adapters/indeed/scraping.py:153-166 | every opened tab is navigated, and scrolled when the variant scrolls and `goto` succeeded |
| Scraping.ScrapeSlice | scraper/adapters/indeed/scraping.py:143-186 | one slice's passes give the records and events of its opened tabs |
| Scraping.RunBatches | scraper/adapters/indeed/scraping.py:133-186 | the slice loop computes the run over all slices |
| Scraping.ScrapeJobsBatch | scraper/adapters/indeed/scraping.py:103-195 | the executor returns the run's records and events; a step of 0 makes `range` raise |
| Scraping.BatchJobs | scraper/adapters/indeed/scraping.py:133-195 | with a positive step the records are those of the opened tabs in URL order, at most one per URL |
| Scraping.BatchJobsValid | scraper/adapters/indeed/scraping.py:178-180 | every record comes from one of the URLs, carries its id (not "unknown"), a title not starting with "Unknown", and source "indeed" |
| Scraping.ClampKeepsJobs | scraper/adapters/indeed/scraping.py:119-137 | the clamp changes how many tabs are open at once, never which records come out |
| Scraping.ClampWithoutScrapeOpsProxy | scraper/adapters/indeed/scraping.py:119 | with a ScrapeOps key set and no proxy in use, the modular executor still clamps to 1 and the monolithic one does not |
| Scraping.TabEventCounts | scraper/adapters/indeed/scraping.py:144-186 | an opened tab is loaded once and closed once, or twice when flagged; only the modular executor scrolls; a tab that failed to open gets no event |
| Scraping.JobAttempt | scraper/adapters/indeed/scraping.py:204-258 | one attempt of `scrape_job`; stated by `AttemptAgreesWithExtractor` and `RejectedPageNotRetried` |
| Scraping.ScrapeJob | scraper/adapters/indeed/scraping.py:198-264 | `scrape_job` under the retry defaults ends as the retry run says, with the tab events of every attempt made and one sleep per retry |
| Scraping.AttemptAgreesWithExtractor | scraper/adapters/indeed/scraping.py:204-258 | an attempt that reaches the page succeeds exactly when the batch extractor accepts it, with the same record except a JSON-LD-first description; a failed open or `goto` passes its error on; other failures are not retryable |
| Scraping.RejectedPageNotRetried | scraper/adapters/indeed/scraping.py:215-244 | a bot page or a missing title or id ends the run at once with its error |
| Scraping.AttemptOwnCounts | scraper/adapters/indeed/scraping.py:205-264 | an attempt whose tab opened opens and closes it once |
| Scraping.ClosedOncePerAttempt | scraper/adapters/indeed/scraping.py:263-264 | each attempt that opened a page closes it exactly once; one whose `new_page` failed neither opens nor closes one |
| Manager.BrowserManager.constructor | scraper/browser/manager.py:23-25 | nothing is held at first, and the log is empty |
| Manager.BrowserManager.Initialize | scraper/browser/manager.py:28-47 | the new handles and the actions taken are those of `Init` on the old handles; handles stay fresh, and a context is held only on a browser, a browser only on playwright |
| Manager.BrowserManager.GetContextOf | scraper/browser/manager.py:50-56 | initializes only without a context, then returns the stored context; the manager's invariant is kept |
| Manager.BrowserManager.NewPage | scraper/browser/manager.py:59-64 | goes through `get_context`, then opens a tab in that context whose handle differs from every handle made before and from the playwright, browser and context held; the manager's invariant is kept |
| Manager.BrowserManager.Close | scraper/browser/manager.py:67-84 | closes what is set, in close order, and leaves all three unset; the manager's invariant is kept |
| Manager.Init | scraper/browser/manager.py:35-47 | the handles and actions of `initialize`; stated by `InitComplete`, `InitIdempotent` and `InitCreatesMissing` |
| Manager.InitComplete | scraper/browser/manager.py:35-47 | after `initialize` all three are set, those already set are kept, and fresh handles stay fresh |
| Manager.InitIdempotent | scraper/browser/manager.py:35-47 | a second `initialize` recreates nothing and asks Playwright for nothing |
| Manager.InitCreatesMissing | scraper/browser/manager.py:35-47 | one action per missing piece, each built on the piece before it and given a never-used handle |
| Manager.GetContextShape | scraper/browser/manager.py:50-56 | `get_context` always ends with a context, and builds only when there was none |
| Manager.CloseActions | scraper/browser/manager.py:71-84 | the actions of `close`; stated by `CloseOrder` and `CloseThenInit` |
| Manager.CloseOrder | scraper/browser/manager.py:71-84 | context, then browser, then playwright; a second close does nothing |
| Manager.CloseThenInit | scraper/browser/manager.py:35-84 | after `close` the next `initialize` builds all three afresh, with new handles |
| Window.Raising | scraper/browser/window.py:28-32 | the contexts whose close raises are exactly those tracked that raise |
| Window.RaisingAppend | scraper/browser/window.py:28-32 | one context's failure does not affect the others' |
| Window.WindowManager.constructor | scraper/browser/window.py:14-15 | nothing is tracked at first |
| Window.WindowManager.Track | scraper/browser/window.py:17-19 | the context is appended at the end and nothing else changes |
| Window.WindowManager.Windows | scraper/browser/window.py:21-24 | a fresh copy of the tracked list, so changing it leaves the list alone |
| Window.WindowManager.CloseAll | scraper/browser/window.py:26-33 | every tracked context is closed in order, failures are logged without skipping the rest, and the list ends empty |

## Left out

- Waiting is not modelled. I/O, real time, sleeping and randomness are
  inputs: jitter, measurements, attempt outcomes and tab behaviour.
  - The model has no concurrency or interleaving between tabs.
  - `RateLimit.RateLimiter.Acquire` reports "no permit" where the semaphore
    would block.
- `serp_limiter` and `page_limiter` are not threaded through `discover_jobs`
  and `scrape_job`.
  - Their permit discipline is proved once, in
    `RateLimit.RateLimiter.Guarded`.
- The limiter's permits are unbounded, as for `asyncio.Semaphore`.
- Floating point is left out.
  - JSON numbers are integers, so a float salary bound renders through the
    integer case only.
  - Sleeps are reals.
- Regex semantics are an oracle (`env.search`) for the salary patterns
  only. The mosaic pattern that `Utils.ExtractJsonFromScript` captures with
  is written out.
- `json.loads` is an oracle (`env.parse`) for the JSON-LD scripts and the
  captured mosaic text.
- URL parsing is modelled only as far as the first non-blank `jk` value.
  `Scraping.JkOf` does no percent-decoding and does not turn `+` into a
  space as `parse_qs` does. It ignores the `params`, the scheme and the
  netloc.
- Unicode case mapping and `str.title()` are modelled for ASCII letters only.
  `Text.Lower` and `Text.TitleCase` leave other characters unchanged.
- Element reads are assumed never to raise. Only locator queries
  (`count`, `all`, a strict `inner_text`) can raise in the model;
  `inner_text` and `get_attribute` on an element that exists cannot.
  - JsonLd.FirstJobPostingAt: in the source, a script whose `inner_text`
    raises ends `extract_json_ld` with None even when a later script
    would qualify. The model has no such case.
  - Dom.ReadCard: a card whose link, span, company or location read
    raises is skipped in the source. The model skips a card only when one
    of its queries raises, which has the same outcome.
  - `Utils.SafeExtract` catches a raising read with the same handler as a
    raising query, so a failing selector covers it.
- `page.close()` is assumed never to raise.
  - Page closing is recorded in the event trace only.
  - `discover_jobs`'s own `finally` close is not recorded.
- `Scraping.ScrapeJob`'s tab events are derived from the attempt count. The
  retry loop itself is `RateLimit.WithRetry`.
- Exceptions raised midway through `BrowserManager.initialize` are not
  modelled (a failed launch or context creation).
  - The user-agent choice and the launch, context and tab factories are
    Playwright wrappers, represented by numbered handles.
- Manager.BrowserManager.Close: `context.close()`, `browser.close()` and
  `playwright.stop()` are assumed never to raise. In the source such an
  exception leaves the later pieces set and reaches the caller.
- The manager's class-level attributes are modelled as one instance.
- `get_browser_context` (scraper/browser/manager.py:87-94) has no member of
  its own. It is `Manager.BrowserManager.GetContextOf` without the
  re-check: it runs `initialize`, then yields the context it finds.
- These modules are not part of this model:
  - scraper/browser/human_input.py, stealth.py, utils.py, launch.py,
    browser_factory.py, context.py, context_factory.py, tabs.py and
    user_agent.py: cursor geometry, injected JavaScript and Playwright
    wrappers;
  - scraper/core/runner.py and main.py: orchestration and the entry point.
- The `adapter.py` delegation is not modelled. Its one piece of state, the
  `seen_jks` set that outlives each call, is the `seenJks` field of
  `Discovery.IndeedAdapter`.
- Logging is left out.

## Findings

| source | as written | input that shows it | evidently intended | confidence | as-written member | corrected member |
|---|---|---|---|---|---|---|
| scraper/browser/proxy.py:162 | `get_proxy_config` reads `settings.PROXY_PROVIDER` (and the providers read SCRAPERAPI_API_KEY, ZENROWS_API_KEY and the PROXY_* fields). scraper/config/settings.py:8-40 declares none of these, so the read raises AttributeError. | the shipped settings, with or without a ScrapeOps key | the proxy attributes are declared, with PROXY_PROVIDER defaulting to "none" as the docstring at proxy.py:155-156 says, and the call then never raises | not executed | Proxy.ShippedSettingsRaise | Proxy.DeclaredNeverRaises |

