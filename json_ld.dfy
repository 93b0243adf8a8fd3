/** scraper/adapters/indeed/extraction/json_ld.py: find the page's JobPosting
    JSON-LD block and resolve title, company, location and description from it,
    falling back to the DOM selector chains. A JSON-LD value is returned as it
    is (a title may be any JSON value); DOM text is a string. */
module JsonLd {
  import opened Outcomes
  import opened Json
  import opened Browser
  import opened Selectors
  import Utils
  import Text

  type JsonLdDoc = map<string, Json>

  predicate IsJobPosting(j: Json) {
    j.JObj? && "@type" in j.fields && j.fields["@type"] == JStr("JobPosting")
  }

  /** The first script, in document order, whose text parses to a JobPosting object. */
  function FirstJobPosting(parse: string -> Option<Json>, scripts: seq<Node>): Option<JsonLdDoc> {
    if scripts == [] then None
    else
      var data := parse(scripts[0].text);
      if data.Some? && IsJobPosting(data.value) then Some(data.value.fields)
      else FirstJobPosting(parse, scripts[1..])
  }

  /** `extract_json_ld`; a query that raises gives None. */
  function ExtractJsonLd(env: Env, page: Page): Option<JsonLdDoc> {
    match Locate(page.root, JSON_LD_SELECTOR)
    case Raised => None
    case Hits(scripts) => FirstJobPosting(env.parse, scripts)
  }

  /** The script at index i is the one returned when it qualifies and no earlier
      one does (earlier scripts that do not parse, or parse to something other
      than a JobPosting object, are skipped). */
  lemma {:induction false} FirstJobPostingAt(parse: string -> Option<Json>, scripts: seq<Node>, i: nat)
    requires i < |scripts|
    requires parse(scripts[i].text).Some? && IsJobPosting(parse(scripts[i].text).value)
    requires forall j :: 0 <= j < i ==> parse(scripts[j].text).None? || !IsJobPosting(parse(scripts[j].text).value)
    ensures FirstJobPosting(parse, scripts) == Some(parse(scripts[i].text).value.fields)
  {
    if i > 0 {
      FirstJobPostingAt(parse, scripts[1..], i - 1);
    }
  }

  /** No qualifying script means None; and a result is always a JobPosting object
      taken from one of the scripts. */
  lemma {:induction false} FirstJobPostingNone(parse: string -> Option<Json>, scripts: seq<Node>)
    ensures FirstJobPosting(parse, scripts).None? <==>
      forall j :: 0 <= j < |scripts| ==> parse(scripts[j].text).None? || !IsJobPosting(parse(scripts[j].text).value)
    ensures FirstJobPosting(parse, scripts).Some? ==>
      IsJobPosting(JObj(FirstJobPosting(parse, scripts).value)) &&
      exists j :: 0 <= j < |scripts| && parse(scripts[j].text) == Some(JObj(FirstJobPosting(parse, scripts).value))
    decreases |scripts|
  {
    if scripts != [] {
      FirstJobPostingNone(parse, scripts[1..]);
      var data := parse(scripts[0].text);
      if !(data.Some? && IsJobPosting(data.value)) {
        forall j | 0 < j < |scripts| ensures scripts[j] == scripts[1..][j - 1] { }
        var r := FirstJobPosting(parse, scripts);
        if r.Some? {
          var j :| 0 <= j < |scripts[1..]| && parse(scripts[1..][j].text) == Some(JObj(r.value));
          assert parse(scripts[j + 1].text) == Some(JObj(r.value));
        }
      } else {
        assert data == Some(JObj(data.value.fields));
      }
    }
  }

  /** `json_ld and key in json_ld`: the dict was found, is non-empty and has the key. */
  predicate HasKey(jsonLd: Option<JsonLdDoc>, key: string) {
    jsonLd.Some? && key in jsonLd.value
  }

  function ExtractTitle(root: Node, jsonLd: Option<JsonLdDoc>): Json {
    if HasKey(jsonLd, "title") then jsonLd.value["title"]
    else JStr(Utils.SafeExtractOf(root, TITLE_SELECTORS, "title"))
  }

  function ExtractCompany(root: Node, jsonLd: Option<JsonLdDoc>): Json {
    if HasKey(jsonLd, "hiringOrganization") && jsonLd.value["hiringOrganization"].JObj?
       && "name" in jsonLd.value["hiringOrganization"].fields
    then jsonLd.value["hiringOrganization"].fields["name"]
    else JStr(Utils.SafeExtractOf(root, COMPANY_SELECTORS, "company"))
  }

  /** The JSON-LD address object, when jobLocation is an object holding an
      object under "address". */
  function Address(jsonLd: Option<JsonLdDoc>): Option<map<string, Json>> {
    if HasKey(jsonLd, "jobLocation") && jsonLd.value["jobLocation"].JObj?
       && "address" in jsonLd.value["jobLocation"].fields
       && jsonLd.value["jobLocation"].fields["address"].JObj?
    then Some(jsonLd.value["jobLocation"].fields["address"].fields)
    else None
  }

  /** `f"{city}, {region}".strip(", ")` with missing parts defaulting to "". */
  function FormatAddress(env: Env, addr: map<string, Json>): string {
    var city := Show(env, GetOr(addr, "addressLocality", JStr("")));
    var region := Show(env, GetOr(addr, "addressRegion", JStr("")));
    Text.StripBy(city + ", " + region, Text.IsCommaOrSpace)
  }

  function ExtractLocation(env: Env, root: Node, jsonLd: Option<JsonLdDoc>): string {
    match Address(jsonLd)
    case Some(addr) => FormatAddress(env, addr)
    case None => Utils.SafeExtractOf(root, LOCATION_DETAIL_SELECTORS, "location")
  }

  /** `extract_description`: JSON-LD first, then the text of the single
      `div#jobDescriptionText` container, else "". */
  function ExtractDescription(root: Node, jsonLd: Option<JsonLdDoc>): (r: Json)
    ensures HasKey(jsonLd, "description") ==> r == jsonLd.value["description"]
    ensures !HasKey(jsonLd, "description") ==>
      r == JStr(match StrictText(root, DESCRIPTION_SELECTOR) case Some(t) => t case None => "")
  {
    if HasKey(jsonLd, "description") then jsonLd.value["description"]
    else
      match StrictText(root, DESCRIPTION_SELECTOR)
      case Some(t) => JStr(t)
      case None => JStr("")
  }

  /** Structured precedence for the title: a JSON-LD title wins verbatim and the
      DOM is not read (any other page gives the same title); without one the
      title is the selector chain's result. */
  lemma TitlePrecedence(root: Node, other: Node, jsonLd: Option<JsonLdDoc>)
    ensures HasKey(jsonLd, "title") ==>
      ExtractTitle(root, jsonLd) == jsonLd.value["title"] &&
      ExtractTitle(other, jsonLd) == ExtractTitle(root, jsonLd)
    ensures !HasKey(jsonLd, "title") ==>
      ExtractTitle(root, jsonLd) == JStr(Utils.SafeExtractOf(root, TITLE_SELECTORS, "title"))
  {
  }

  /** The company comes from hiringOrganization.name only when that is an object
      with a "name" key; every other shape falls through to the selector chain. */
  lemma CompanySource(root: Node, jsonLd: Option<JsonLdDoc>)
    ensures var c := ExtractCompany(root, jsonLd);
      (HasKey(jsonLd, "hiringOrganization") && jsonLd.value["hiringOrganization"].JObj? &&
       "name" in jsonLd.value["hiringOrganization"].fields)
      ==> c == jsonLd.value["hiringOrganization"].fields["name"]
    ensures var c := ExtractCompany(root, jsonLd);
      !(HasKey(jsonLd, "hiringOrganization") && jsonLd.value["hiringOrganization"].JObj? &&
        "name" in jsonLd.value["hiringOrganization"].fields)
      ==> c == JStr(Utils.SafeExtractOf(root, COMPANY_SELECTORS, "company"))
  {
  }

  /** A string part "stands alone" when it does not begin or end with ',' or ' ',
      so stripping cannot eat into it. */
  predicate Clean(s: string) {
    s != [] ==> !Text.IsCommaOrSpace(s[0]) && !Text.IsCommaOrSpace(s[|s| - 1])
  }

  /** Stripping ", " and blanks off `c + ", " + r` leaves the parts joined by
      ", " when both are present, and the present part alone otherwise. */
  lemma JoinStripped(c: string, r: string)
    requires Clean(c) && Clean(r)
    ensures Text.StripBy(c + ", " + r, Text.IsCommaOrSpace) ==
      (if c == [] then r else if r == [] then c else c + ", " + r)
  {
    if c == [] {
      assert c + ", " + r == ", " + r + [];
      Text.StripByPadded(", ", r, [], Text.IsCommaOrSpace);
    } else if r == [] {
      assert c + ", " + r == [] + c + ", ";
      Text.StripByPadded([], c, ", ", Text.IsCommaOrSpace);
    } else {
      var m := c + ", " + r;
      assert m[0] == c[0] && m[|m| - 1] == r[|r| - 1];
      Text.StripByKeeps(m, Text.IsCommaOrSpace);
    }
  }

  /** The JSON-LD location: "city, region"; city alone gives the city, region
      alone the region, neither gives "" (never the "Unknown Location" sentinel). */
  lemma LocationFromAddress(env: Env, root: Node, jsonLd: Option<JsonLdDoc>, city: string, region: string)
    requires Address(jsonLd).Some?
    requires Clean(city) && Clean(region)
    requires "addressLocality" in Address(jsonLd).value ==> Address(jsonLd).value["addressLocality"] == JStr(city)
    requires "addressRegion" in Address(jsonLd).value ==> Address(jsonLd).value["addressRegion"] == JStr(region)
    ensures var c := if "addressLocality" in Address(jsonLd).value then city else "";
            var r := if "addressRegion" in Address(jsonLd).value then region else "";
      ExtractLocation(env, root, jsonLd) == (if c == [] then r else if r == [] then c else c + ", " + r)
  {
    var addr := Address(jsonLd).value;
    var c := if "addressLocality" in addr then city else "";
    var r := if "addressRegion" in addr then region else "";
    assert Show(env, GetOr(addr, "addressLocality", JStr(""))) == c;
    assert Show(env, GetOr(addr, "addressRegion", JStr(""))) == r;
    JoinStripped(c, r);
  }

  /** Location falls back to the selector chain only when there is no address
      object; with one, even an empty address gives "" rather than a sentinel. */
  lemma LocationFallback(env: Env, root: Node, jsonLd: Option<JsonLdDoc>)
    ensures Address(jsonLd).None? ==>
      ExtractLocation(env, root, jsonLd) == Utils.SafeExtractOf(root, LOCATION_DETAIL_SELECTORS, "location")
    ensures Address(jsonLd) == Some(map[]) ==> ExtractLocation(env, root, jsonLd) == ""
  {
    if Address(jsonLd) == Some(map[]) {
      LocationFromAddress(env, root, jsonLd, "", "");
    }
  }
}
