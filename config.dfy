/** scraper/config/settings.py as an explicit record. Only the fields the modelled
    code reads are kept. `scrapeopsApiKey` is None when the environment variable
    is unset (`os.getenv` gives None and pydantic does not validate defaults).
    `undeclared` holds the attributes other code reads although Settings never
    declares them (the proxy fields); reading one absent from it raises
    AttributeError, and the shipped class has none of them. */
module Config {
  import opened Outcomes

  datatype Settings = Settings(
    maxConcurrentPages: int,
    maxConcurrentSerp: int,
    maxRetries: int,
    navigationTimeout: int,
    scrapeopsApiKey: Option<string>,
    undeclared: map<string, Option<string>>)

  /** The attributes scraper/browser/proxy.py reads besides SCRAPEOPS_API_KEY. */
  const PROXY_FIELDS: seq<string> := [
    "PROXY_PROVIDER", "SCRAPERAPI_API_KEY", "ZENROWS_API_KEY",
    "PROXY_SERVER", "PROXY_USERNAME", "PROXY_PASSWORD"
  ]

  /** Python truthiness of an optional string: None and "" are false. */
  predicate Truthy(o: Option<string>) {
    o.Some? && o.value != []
  }

  /** `settings.SCRAPEOPS_API_KEY` read as a condition. */
  predicate ScrapeOpsKeySet(s: Settings) {
    Truthy(s.scrapeopsApiKey)
  }

  /** `settings.<name>` for a string-valued attribute: None when the attribute
      does not exist (AttributeError), else its value. */
  function Attr(s: Settings, name: string): (r: Option<Option<string>>)
    ensures name == "SCRAPEOPS_API_KEY" ==> r == Some(s.scrapeopsApiKey)
    ensures name != "SCRAPEOPS_API_KEY" ==> (r.Some? <==> name in s.undeclared)
    ensures name != "SCRAPEOPS_API_KEY" && name in s.undeclared ==> r == Some(s.undeclared[name])
  {
    if name == "SCRAPEOPS_API_KEY" then Some(s.scrapeopsApiKey)
    else if name in s.undeclared then Some(s.undeclared[name])
    else None
  }

  /** The settings as shipped: the defaults of scraper/config/settings.py with
      the ScrapeOps key taken from the environment, and no proxy attributes. */
  function Shipped(scrapeopsKey: Option<string>): (s: Settings)
    ensures s.maxConcurrentPages == 5 && s.maxConcurrentSerp == 1 && s.maxRetries == 3
    ensures forall k :: 0 <= k < |PROXY_FIELDS| ==> Attr(s, PROXY_FIELDS[k]).None?
  {
    Settings(5, 1, 3, 30000, scrapeopsKey, map[])
  }

  /** The evident intent: the same defaults with the proxy attributes declared,
      the provider defaulting to "none" and the rest unset. */
  function Intended(scrapeopsKey: Option<string>): (s: Settings)
    ensures forall k :: 0 <= k < |PROXY_FIELDS| ==> Attr(s, PROXY_FIELDS[k]).Some?
    ensures Attr(s, "PROXY_PROVIDER") == Some(Some("none"))
  {
    Settings(5, 1, 3, 30000, scrapeopsKey,
      map["PROXY_PROVIDER" := Some("none"), "SCRAPERAPI_API_KEY" := None,
          "ZENROWS_API_KEY" := None, "PROXY_SERVER" := None,
          "PROXY_USERNAME" := None, "PROXY_PASSWORD" := None])
  }
}
