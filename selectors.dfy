/** The Indeed adapter's constants: addresses, pagination limits, the selectors
    it queries in order and the salary patterns, as scraper/adapters/indeed/config.py
    and selectors.py define them. */
module Selectors {

  const BASE_URL := "https://www.indeed.com"
  const SEARCH_URL := "https://www.indeed.com/jobs"
  const MAX_PAGES := 5
  const JOBS_PER_PAGE := 10

  const SERP_CARD_SELECTORS: seq<string> := [
    "#mosaic-provider-jobcards > div > ul > li > div > div > div > div.slider_item.css-17bghu4.eu4oa1w0 > div > div > table > tbody > tr > td",
    "#mosaic-provider-jobcards ul li div.slider_item",
    "#mosaic-provider-jobcards ul li"
  ]

  const JOB_LINK_SELECTOR := "a[data-jk]"
  const JOB_TITLE_SPAN_SELECTOR := "span[title]"
  const COMPANY_NAME_SELECTOR := "[data-testid=\"company-name\"]"
  const LOCATION_SELECTOR := "[data-testid=\"text-location\"]"
  const JOB_CARDS_CONTAINER_SELECTOR := "#mosaic-provider-jobcards"

  const CAPTCHA_SELECTORS: seq<string> := [
    "iframe[src*=\"hcaptcha\"]",
    "iframe[src*=\"recaptcha\"]",
    "div[class*=\"captcha\"]",
    "div[id*=\"captcha\"]",
    "#px-captcha",
    ".g-recaptcha"
  ]

  const BLOCKING_KEYWORDS: seq<string> := [
    "security check",
    "verify you're human",
    "access denied",
    "blocked"
  ]

  const TITLE_SELECTORS: seq<string> := [
    "h2[data-testid*=\"jobsearch-JobInfoHeader-title\"] span",
    "h1[class*=\"jobsearch-JobInfoHeader-title\"]",
    "h2.jobsearch-JobInfoHeader-title span"
  ]

  const COMPANY_SELECTORS: seq<string> := [
    "div[data-company-name]",
    "a[data-tn-element=\"companyName\"]",
    "span[class*=\"companyName\"] a",
    "div.jobsearch-InlineCompanyRating div"
  ]

  const LOCATION_DETAIL_SELECTORS: seq<string> := [
    "div[data-testid*=\"location\"]",
    "div[class*=\"jobsearch-JobInfoHeader-subtitle\"] div",
    "div.jobsearch-JobInfoHeader-subtitle div"
  ]

  const DESCRIPTION_SELECTOR := "div#jobDescriptionText"
  const DESCRIPTION_SELECTOR_ALT := "#jobDescriptionText"
  const JSON_LD_SELECTOR := "script[type=\"application/ld+json\"]"

  const SALARY_PATTERNS: seq<string> := [
    "[$₹€£¥]\\s*[\\d,]+(?:\\.\\d{2})?\\s*-\\s*[$₹€£¥]\\s*[\\d,]+(?:\\.\\d{2})?",
    "[\\d,]+(?:\\.\\d{2})?\\s*-\\s*[\\d,]+(?:\\.\\d{2})?\\s*(?:per|/)\\s*(?:month|year|hour)"
  ]

  /** The adapter exists twice: the modular package and the older single-file
      `IndeedAdapter`. They differ in three places only. */
  datatype Variant = Modular | Monolithic

  /** The query appended to a DOM card's fallback URL when its link has no href. */
  function FallbackSuffix(v: Variant): string {
    if v.Modular? then "&from=shareddesktop_copy" else ""
  }

  /** Whether the batch executor forces one tab at a time when a ScrapeOps key is set. */
  predicate ClampsForScrapeOps(v: Variant) {
    v.Modular?
  }

  /** Whether the batch executor scrolls each tab after navigating it. */
  predicate ScrollsInBatch(v: Variant) {
    v.Modular?
  }
}
