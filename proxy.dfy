/** scraper/browser/proxy.py: the provider registry and each provider's
    `get_config`, a dispatch over the settings record. A result is
    `Ok(None)` (no proxy), `Ok(Some(config))`, or `Fatal` when an attribute
    the code reads does not exist on the settings object. */
module Proxy {
  import opened Outcomes
  import opened Config
  import Text

  datatype Provider = NoProxy | ScrapeOps | ScraperApi | Generic | ZenRows

  /** The dict handed to the browser context: "server", "username", "password". */
  type ProxyConfig = map<string, string>

  /** The keys of PROXY_PROVIDERS. */
  const PROVIDER_NAMES: seq<string> := ["none", "scrapeops", "scraperapi", "generic", "zenrows"]

  const MISSING_ATTRIBUTE := "AttributeError"

  /** `PROXY_PROVIDERS.get(name)`. */
  function Registry(name: string): (p: Option<Provider>)
    ensures p.Some? <==> name in PROVIDER_NAMES
    ensures p == Some(NoProxy) <==> name == "none"
  {
    if name == "none" then Some(NoProxy)
    else if name == "scrapeops" then Some(ScrapeOps)
    else if name == "scraperapi" then Some(ScraperApi)
    else if name == "generic" then Some(Generic)
    else if name == "zenrows" then Some(ZenRows)
    else None
  }

  /** `get_name`. */
  function DisplayName(p: Provider): string {
    match p
    case NoProxy => "No Proxy"
    case ScrapeOps => "ScrapeOps"
    case ScraperApi => "ScraperAPI"
    case Generic => "Generic Proxy"
    case ZenRows => "ZenRows"
  }

  /** Each provider has a name of its own: no two providers log alike. */
  lemma DisplayNamesDistinct(p: Provider, q: Provider)
    ensures DisplayName(p) == DisplayName(q) <==> p == q
  {
  }

  /** A service proxy: no key means no proxy; with a key the server and one
      credential are fixed and the key is the other. */
  function KeyedConfig(key: Option<Option<string>>, config: string -> ProxyConfig): (r: Outcome<Option<ProxyConfig>>)
    ensures key.None? <==> r.Fatal?
    ensures key.Some? && !Truthy(key.value) ==> r == Ok(None)
    ensures key.Some? && Truthy(key.value) ==> r == Ok(Some(config(key.value.value)))
  {
    match key
    case None => Fatal(MISSING_ATTRIBUTE)
    case Some(k) => if Truthy(k) then Ok(Some(config(k.value))) else Ok(None)
  }

  function ScrapeOpsConfig(key: string): ProxyConfig {
    map["server" := "http://proxy.scrapeops.io:5353", "username" := "scrapeops", "password" := key]
  }

  function ScraperApiConfig(key: string): ProxyConfig {
    map["server" := "http://proxy-server.scraperapi.com:8001", "username" := "scraperapi", "password" := key]
  }

  /** ZenRows takes the key as the user name and fixed options as the password. */
  function ZenRowsConfig(key: string): ProxyConfig {
    map["server" := "http://api.zenrows.com:8001", "username" := key, "password" := "premium_proxy=true&antibot=true"]
  }

  /** `{key: value}` when the setting is set, else nothing. */
  function Optional(key: string, value: Option<string>): ProxyConfig {
    if Truthy(value) then map[key := value.value] else map[]
  }

  /** GenericProxyProvider: PROXY_SERVER is required; username and password are
      added only when set. */
  function GenericConfig(s: Settings): (r: Outcome<Option<ProxyConfig>>)
    ensures r.Ok? && r.value.Some? ==>
      Attr(s, "PROXY_SERVER").Some? && Truthy(Attr(s, "PROXY_SERVER").value) &&
      "server" in r.value.value && r.value.value["server"] == Attr(s, "PROXY_SERVER").value.value
  {
    match Attr(s, "PROXY_SERVER")
    case None => Fatal(MISSING_ATTRIBUTE)
    case Some(server) =>
      if !Truthy(server) then Ok(None)
      else
        match Attr(s, "PROXY_USERNAME")
        case None => Fatal(MISSING_ATTRIBUTE)
        case Some(user) =>
          match Attr(s, "PROXY_PASSWORD")
          case None => Fatal(MISSING_ATTRIBUTE)
          case Some(password) =>
            Ok(Some(map["server" := server.value] + Optional("username", user) + Optional("password", password)))
  }

  /** `provider_class().get_config()`. */
  function GetConfig(p: Provider, s: Settings): (r: Outcome<Option<ProxyConfig>>)
    ensures p.NoProxy? ==> r == Ok(None)
    ensures r.Ok? && r.value.Some? ==> "server" in r.value.value
    ensures !p.Generic? && r.Ok? && r.value.Some? ==> r.value.value.Keys == {"server", "username", "password"}
  {
    match p
    case NoProxy => Ok(None)
    case ScrapeOps => KeyedConfig(Attr(s, "SCRAPEOPS_API_KEY"), ScrapeOpsConfig)
    case ScraperApi => KeyedConfig(Attr(s, "SCRAPERAPI_API_KEY"), ScraperApiConfig)
    case ZenRows => KeyedConfig(Attr(s, "ZENROWS_API_KEY"), ZenRowsConfig)
    case Generic => GenericConfig(s)
  }

  /** `get_proxy_config`: lower-case the provider name, look it up, and fall back
      to no proxy for an unknown name. */
  function GetProxyConfig(s: Settings): (r: Outcome<Option<ProxyConfig>>)
    ensures Attr(s, "PROXY_PROVIDER").None? ==> r.Fatal?
    ensures Attr(s, "PROXY_PROVIDER") == Some(None) ==> r.Fatal?
    ensures r.Ok? && r.value.Some? ==> "server" in r.value.value
  {
    match Attr(s, "PROXY_PROVIDER")
    case None => Fatal(MISSING_ATTRIBUTE)
    case Some(None) => Fatal(MISSING_ATTRIBUTE)   // None.lower()
    case Some(Some(name)) =>
      match Registry(Text.Lower(name))
      case None => Ok(None)
      case Some(p) => GetConfig(p, s)
  }

  /** The settings `s` with PROXY_PROVIDER set to `name`. */
  function WithProvider(s: Settings, name: string): Settings {
    s.(undeclared := s.undeclared["PROXY_PROVIDER" := Some(name)])
  }

  lemma LowerIdempotent(name: string)
    ensures Text.Lower(Text.Lower(name)) == Text.Lower(name)
  {
    var l := Text.Lower(name);
    forall i | 0 <= i < |l| ensures Text.Lower(l)[i] == l[i] { }
  }

  /** Which provider is named does not change what a provider reads. */
  lemma ProviderIrrelevant(p: Provider, s: Settings, a: string, b: string)
    ensures GetConfig(p, WithProvider(s, a)) == GetConfig(p, WithProvider(s, b))
  {
    var sa, sb := WithProvider(s, a), WithProvider(s, b);
    assert Attr(sa, "SCRAPEOPS_API_KEY") == Attr(sb, "SCRAPEOPS_API_KEY");
    assert Attr(sa, "SCRAPERAPI_API_KEY") == Attr(sb, "SCRAPERAPI_API_KEY");
    assert Attr(sa, "ZENROWS_API_KEY") == Attr(sb, "ZENROWS_API_KEY");
    assert Attr(sa, "PROXY_SERVER") == Attr(sb, "PROXY_SERVER");
    assert Attr(sa, "PROXY_USERNAME") == Attr(sb, "PROXY_USERNAME");
    assert Attr(sa, "PROXY_PASSWORD") == Attr(sb, "PROXY_PASSWORD");
  }

  /** The provider name is matched case-insensitively: a name and its lower-case
      form select the same configuration, and an unregistered name gives no proxy
      whatever the other settings hold. */
  lemma ProviderDispatch(s: Settings, name: string)
    ensures GetProxyConfig(WithProvider(s, name)) == GetProxyConfig(WithProvider(s, Text.Lower(name)))
    ensures Text.Lower(name) !in PROVIDER_NAMES ==> GetProxyConfig(WithProvider(s, name)) == Ok(None)
    ensures Text.Lower(name) == "none" ==> GetProxyConfig(WithProvider(s, name)) == Ok(None)
    ensures Text.Lower(name) in PROVIDER_NAMES ==>
      GetProxyConfig(WithProvider(s, name)) == GetConfig(Registry(Text.Lower(name)).value, WithProvider(s, name))
  {
    LowerIdempotent(name);
    assert Attr(WithProvider(s, name), "PROXY_PROVIDER") == Some(Some(name));
    assert Attr(WithProvider(s, Text.Lower(name)), "PROXY_PROVIDER") == Some(Some(Text.Lower(name)));
    var p := Registry(Text.Lower(name));
    if p.Some? {
      ProviderIrrelevant(p.value, s, name, Text.Lower(name));
    }
  }

  /** The three key-based services: no key, no proxy; with a key, the fixed
      server and credential with the key in its place. */
  lemma KeyedProviders(s: Settings)
    ensures !ScrapeOpsKeySet(s) ==> GetConfig(ScrapeOps, s) == Ok(None)
    ensures ScrapeOpsKeySet(s) ==> GetConfig(ScrapeOps, s) == Ok(Some(map[
      "server" := "http://proxy.scrapeops.io:5353", "username" := "scrapeops",
      "password" := s.scrapeopsApiKey.value]))
    ensures var k := Attr(s, "SCRAPERAPI_API_KEY");
      k.Some? && Truthy(k.value) ==> GetConfig(ScraperApi, s) == Ok(Some(map[
        "server" := "http://proxy-server.scraperapi.com:8001", "username" := "scraperapi",
        "password" := k.value.value]))
    ensures var k := Attr(s, "ZENROWS_API_KEY");
      k.Some? && Truthy(k.value) ==> GetConfig(ZenRows, s) == Ok(Some(map[
        "server" := "http://api.zenrows.com:8001", "username" := k.value.value,
        "password" := "premium_proxy=true&antibot=true"]))
    ensures var k := Attr(s, "SCRAPERAPI_API_KEY"); k.Some? && !Truthy(k.value) ==> GetConfig(ScraperApi, s) == Ok(None)
    ensures var k := Attr(s, "ZENROWS_API_KEY"); k.Some? && !Truthy(k.value) ==> GetConfig(ZenRows, s) == Ok(None)
  {
  }

  /** The generic proxy carries its server, and a user name or password exactly
      when that setting is non-empty. */
  lemma GenericShape(s: Settings)
    requires Attr(s, "PROXY_SERVER").Some? && Truthy(Attr(s, "PROXY_SERVER").value)
    requires Attr(s, "PROXY_USERNAME").Some? && Attr(s, "PROXY_PASSWORD").Some?
    ensures var r := GetConfig(Generic, s);
      var user := Attr(s, "PROXY_USERNAME").value;
      var password := Attr(s, "PROXY_PASSWORD").value;
      r.Ok? && r.value.Some? &&
      r.value.value["server"] == Attr(s, "PROXY_SERVER").value.value &&
      ("username" in r.value.value <==> Truthy(user)) &&
      (Truthy(user) ==> r.value.value["username"] == user.value) &&
      ("password" in r.value.value <==> Truthy(password)) &&
      (Truthy(password) ==> r.value.value["password"] == password.value) &&
      r.value.value.Keys <= {"server", "username", "password"}
  {
    var server := Attr(s, "PROXY_SERVER").value;
    var user := Attr(s, "PROXY_USERNAME").value;
    var password := Attr(s, "PROXY_PASSWORD").value;
    var m := map["server" := server.value] + Optional("username", user) + Optional("password", password);
    assert GetConfig(Generic, s) == Ok(Some(m));
  }

  /** With the settings class as shipped, every call raises: PROXY_PROVIDER is
      not an attribute of Settings. */
  lemma ShippedSettingsRaise(scrapeopsKey: Option<string>)
    ensures GetProxyConfig(Shipped(scrapeopsKey)).Fatal?
  {
    assert Attr(Shipped(scrapeopsKey), PROXY_FIELDS[0]).None?;
  }

  /** With the proxy attributes declared, no provider raises, and the default
      provider "none" gives no proxy. */
  lemma DeclaredNeverRaises(s: Settings)
    requires forall k :: 0 <= k < |PROXY_FIELDS| ==> Attr(s, PROXY_FIELDS[k]).Some?
    requires Attr(s, "PROXY_PROVIDER").Some? && Attr(s, "PROXY_PROVIDER").value.Some?
    ensures GetProxyConfig(s).Ok?
  {
    assert Attr(s, PROXY_FIELDS[1]).Some? && Attr(s, PROXY_FIELDS[2]).Some?;
    assert Attr(s, PROXY_FIELDS[3]).Some? && Attr(s, PROXY_FIELDS[4]).Some? && Attr(s, PROXY_FIELDS[5]).Some?;
    assert Attr(s, "SCRAPERAPI_API_KEY").Some? && Attr(s, "ZENROWS_API_KEY").Some?;
    assert Attr(s, "PROXY_SERVER").Some? && Attr(s, "PROXY_USERNAME").Some? && Attr(s, "PROXY_PASSWORD").Some?;
  }

  lemma IntendedDefaultIsNoProxy(scrapeopsKey: Option<string>)
    ensures GetProxyConfig(Intended(scrapeopsKey)) == Ok(None)
  {
    assert Text.Lower("none") == "none";
  }
}
