/** scraper/adapters/indeed/extraction/salary.py: a salary range from the
    JSON-LD `baseSalary`, else the first salary-looking text in the page HTML. */
module Salary {
  import opened Outcomes
  import opened Json
  import opened Browser
  import opened Selectors
  import opened JsonLd
  import Text

  /** The JSON-LD `baseSalary.value` object, when baseSalary is an object and its
      "value" (default `{}`) is an object too. */
  function SalaryValue(jsonLd: Option<JsonLdDoc>): Option<map<string, Json>> {
    if HasKey(jsonLd, "baseSalary") && jsonLd.value["baseSalary"].JObj? then
      var value := GetOr(jsonLd.value["baseSalary"].fields, "value", JObj(map[]));
      if value.JObj? then Some(value.fields) else None
    else None
  }

  /** "<currency><min> - <currency><max>" when both bounds are present and truthy;
      the currency defaults to "". */
  function StructuredSalary(env: Env, jsonLd: Option<JsonLdDoc>): (r: Option<string>)
    ensures r.Some? ==> SalaryValue(jsonLd).Some?
    ensures r.Some? <==> (SalaryValue(jsonLd).Some? &&
                          Truthy(GetOr(SalaryValue(jsonLd).value, "minValue", JNull)) &&
                          Truthy(GetOr(SalaryValue(jsonLd).value, "maxValue", JNull)))
  {
    match SalaryValue(jsonLd)
    case None => None
    case Some(value) =>
      var minVal := GetOr(value, "minValue", JNull);
      var maxVal := GetOr(value, "maxValue", JNull);
      var currency := Show(env, GetOr(value, "currency", JStr("")));
      if Truthy(minVal) && Truthy(maxVal) then
        Some(currency + Show(env, minVal) + " - " + currency + Show(env, maxVal))
      else None
  }

  /** `re.search` over the patterns in list order: the whole first match of the
      first pattern that matches anywhere. */
  function FirstPatternMatch(search: (string, string) -> Option<string>, patterns: seq<string>,
                             html: string): (r: Option<string>)
    ensures r.Some? ==> exists i :: 0 <= i < |patterns| && search(patterns[i], html) == r
    ensures r.None? <==> forall i :: 0 <= i < |patterns| ==> search(patterns[i], html).None?
  {
    if patterns == [] then None
    else if search(patterns[0], html).Some? then search(patterns[0], html)
    else
      var r := FirstPatternMatch(search, patterns[1..], html);
      assert forall i :: 0 < i < |patterns| ==> patterns[i] == patterns[1..][i - 1];
      r
  }

  /** `extract_salary`. The HTML is None when `page.content()` raises, which the
      source swallows. */
  function ExtractSalary(env: Env, page: Page, jsonLd: Option<JsonLdDoc>): Option<string> {
    match StructuredSalary(env, jsonLd)
    case Some(s) => Some(s)
    case None =>
      match page.html
      case None => None
      case Some(html) => FirstPatternMatch(env.search, SALARY_PATTERNS, html)
  }

  /** The structured salary wins whenever it exists, and the page is then not read:
      any other page gives the same answer. */
  lemma StructuredWins(env: Env, page: Page, other: Page, jsonLd: Option<JsonLdDoc>)
    requires StructuredSalary(env, jsonLd).Some?
    ensures ExtractSalary(env, page, jsonLd) == StructuredSalary(env, jsonLd)
    ensures ExtractSalary(env, other, jsonLd) == ExtractSalary(env, page, jsonLd)
  {
  }

  /** With numeric bounds and a string currency the result reads
      "<cur><min> - <cur><max>" in decimal. */
  lemma StructuredFormat(env: Env, jsonLd: Option<JsonLdDoc>, cur: string, lo: int, hi: int)
    requires SalaryValue(jsonLd).Some?
    requires var v := SalaryValue(jsonLd).value;
      GetOr(v, "minValue", JNull) == JNum(lo) && GetOr(v, "maxValue", JNull) == JNum(hi) &&
      GetOr(v, "currency", JStr("")) == JStr(cur)
    ensures lo != 0 && hi != 0 ==>
      StructuredSalary(env, jsonLd) == Some(cur + Text.IntToString(lo) + " - " + cur + Text.IntToString(hi))
    ensures lo == 0 || hi == 0 ==> StructuredSalary(env, jsonLd).None?
  {
  }

  /** Without a structured salary the answer is the first pattern, in list order,
      that matches the HTML; None when no pattern matches or the HTML could not be
      read. */
  lemma PatternFallback(env: Env, page: Page, jsonLd: Option<JsonLdDoc>, i: nat)
    requires StructuredSalary(env, jsonLd).None?
    ensures page.html.None? ==> ExtractSalary(env, page, jsonLd).None?
    ensures (page.html.Some? && i < |SALARY_PATTERNS| && env.search(SALARY_PATTERNS[i], page.html.value).Some? &&
             (forall j :: 0 <= j < i ==> env.search(SALARY_PATTERNS[j], page.html.value).None?)) ==>
      ExtractSalary(env, page, jsonLd) == env.search(SALARY_PATTERNS[i], page.html.value)
  {
    if page.html.Some? && i < |SALARY_PATTERNS| {
      var h := page.html.value;
      if i == 1 && env.search(SALARY_PATTERNS[0], h).None? {
        assert SALARY_PATTERNS[1..] == [SALARY_PATTERNS[1]];
      }
    }
  }
}
