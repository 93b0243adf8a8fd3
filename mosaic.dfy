/** scraper/adapters/indeed/extraction/mosaic.py: the job cards Indeed embeds in
    the search page as `window.mosaic.providerData["mosaic-provider-jobcards"]={...};`.
    The regular expression is written out here, so that what it captures (the
    shortest `{...}` ending at the first "};") can be reasoned about. */
module Mosaic {
  import opened Outcomes
  import opened Json
  import opened Browser
  import Text
  import Utils

  /** The literal part of MOSAIC_PATTERN, unescaped. */
  const MOSAIC_PREFIX := "window.mosaic.providerData[\"mosaic-provider-jobcards\"]"

  /** `\s*` from position i: the first position at or after i that is not whitespace. */
  function SkipSpace(h: string, i: nat): (j: nat)
    requires i <= |h|
    ensures i <= j <= |h|
    ensures forall k :: i <= k < j ==> Text.IsSpace(h[k])
    ensures j < |h| ==> !Text.IsSpace(h[j])
    decreases |h| - i
  {
    if i < |h| && Text.IsSpace(h[i]) then SkipSpace(h, i + 1) else i
  }

  predicate ClosesAt(h: string, k: int) {
    0 <= k && k + 1 < |h| && h[k] == '}' && h[k + 1] == ';'
  }

  /** `.*?};` from position i (DOTALL): the first k >= i where "};" starts. */
  function FindClose(h: string, i: nat): (r: Option<nat>)
    requires i <= |h|
    ensures r.Some? ==> i <= r.value && ClosesAt(h, r.value)
    ensures r.Some? ==> forall k :: i <= k < r.value ==> !ClosesAt(h, k)
    ensures r.None? ==> forall k :: i <= k ==> !ClosesAt(h, k)
    decreases |h| - i
  {
    if i + 1 >= |h| then None
    else if ClosesAt(h, i) then Some(i)
    else FindClose(h, i + 1)
  }

  /** Group 1 of a match of MOSAIC_PATTERN that starts exactly at position i. */
  function MatchAt(h: string, i: nat): Option<string>
    requires i <= |h|
  {
    if !Text.OccursAt(h, MOSAIC_PREFIX, i) then None
    else
      var j1 := SkipSpace(h, i + |MOSAIC_PREFIX|);
      if j1 < |h| && h[j1] == '=' then
        var j2 := SkipSpace(h, j1 + 1);
        if j2 < |h| && h[j2] == '{' then
          match FindClose(h, j2 + 1)
          case Some(k) => Some(h[j2..k + 1])
          case None => None
        else None
      else None
  }

  /** `re.search`: the leftmost position where a match starts. */
  function CaptureFrom(h: string, i: nat): Option<string>
    requires i <= |h|
    decreases |h| - i
  {
    if MatchAt(h, i).Some? then MatchAt(h, i)
    else if i == |h| then None
    else CaptureFrom(h, i + 1)
  }

  function MosaicCapture(h: string): Option<string> {
    CaptureFrom(h, 0)
  }

  /** The search returns the match at the leftmost position where one starts. */
  lemma {:induction false} CaptureLeftmost(h: string, i: nat, p: nat)
    requires i <= p <= |h| && MatchAt(h, p).Some?
    requires forall q :: i <= q < p ==> MatchAt(h, q).None?
    ensures CaptureFrom(h, i) == MatchAt(h, p)
    decreases p - i
  {
    if i < p {
      CaptureLeftmost(h, i + 1, p);
    }
  }

  /** A match is one `{...}` block containing no "};". */
  lemma MatchShape(h: string, i: nat)
    requires i <= |h| && MatchAt(h, i).Some?
    ensures var c := MatchAt(h, i).value;
      |c| >= 2 && c[0] == '{' && c[|c| - 1] == '}' && !Text.Contains(c, "};")
  {
    var j1 := SkipSpace(h, i + |MOSAIC_PREFIX|);
    var j2 := SkipSpace(h, j1 + 1);
    var k := FindClose(h, j2 + 1).value;
    var c := h[j2..k + 1];
    assert c == MatchAt(h, i).value;
    assert c[0] == '{' && c[|c| - 1] == '}';
    forall p: int ensures !Text.OccursAt(c, "};", p) {
      if 0 <= p && p + 2 <= |c| {
        assert c[p..p + 2] == [c[p], c[p + 1]];
        if 0 < p && p + 1 < |c| - 1 {
          assert c[p] == h[j2 + p] && c[p + 1] == h[j2 + p + 1];
          assert !ClosesAt(h, j2 + p);
        }
      }
    }
  }

  /** Whatever is captured is one `{...}` block containing no "};": an object
      whose text contains "};" (inside a string value, say) is cut short there. */
  lemma {:induction false} CaptureShape(h: string, i: nat)
    requires i <= |h|
    ensures var c := CaptureFrom(h, i);
      c.Some? ==> |c.value| >= 2 && c.value[0] == '{' && c.value[|c.value| - 1] == '}' &&
                  !Text.Contains(c.value, "};")
    decreases |h| - i
  {
    if MatchAt(h, i).Some? {
      MatchShape(h, i);
    } else if i < |h| {
      CaptureShape(h, i + 1);
    }
  }

  /** Round trip: a page whose text starts with the assignment of an object `obj`
      (braced, with no "};" before its final brace) yields exactly `obj`. */
  lemma CaptureEmbedded(obj: string, rest: string)
    requires |obj| >= 2 && obj[0] == '{' && obj[|obj| - 1] == '}'
    requires forall p :: 0 <= p < |obj| - 1 ==> !(obj[p] == '}' && obj[p + 1] == ';')
    ensures MosaicCapture(MOSAIC_PREFIX + "=" + obj + ";" + rest) == Some(obj)
  {
    var h := MOSAIC_PREFIX + "=" + obj + ";" + rest;
    var n := |MOSAIC_PREFIX|;
    assert h[..n] == MOSAIC_PREFIX;
    assert Text.OccursAt(h, MOSAIC_PREFIX, 0);
    assert h[n] == '=';
    assert SkipSpace(h, n) == n;
    assert h[n + 1] == '{';
    assert SkipSpace(h, n + 1) == n + 1;
    var k := n + |obj|;
    assert ClosesAt(h, k);
    forall q | n + 2 <= q < k ensures !ClosesAt(h, q) {
      assert h[q] == obj[q - n - 1] && h[q + 1] == obj[q - n];
    }
    assert FindClose(h, n + 2) == Some(k);
    assert h[n + 1..k + 1] == obj;
  }

  /** `data["metaData"]["mosaicProviderJobCardsModel"].get("results", [])` with
      every way the chain can fail (a missing key, a value that is not a dict, a
      result without a length) giving []. */
  function CardsOf(data: Option<Json>): (r: Json)
    ensures r != JArr([]) ==>
      data.Some? && data.value.JObj? && "metaData" in data.value.fields &&
      data.value.fields["metaData"].JObj? &&
      "mosaicProviderJobCardsModel" in data.value.fields["metaData"].fields &&
      data.value.fields["metaData"].fields["mosaicProviderJobCardsModel"].JObj? &&
      "results" in data.value.fields["metaData"].fields["mosaicProviderJobCardsModel"].fields &&
      r == data.value.fields["metaData"].fields["mosaicProviderJobCardsModel"].fields["results"] &&
      (r.JArr? || r.JObj? || r.JStr?)
  {
    if data.None? || !data.value.JObj? || "metaData" !in data.value.fields then JArr([])
    else
      var meta := data.value.fields["metaData"];
      if !meta.JObj? || "mosaicProviderJobCardsModel" !in meta.fields then JArr([])
      else
        var model := meta.fields["mosaicProviderJobCardsModel"];
        if !model.JObj? then JArr([])
        else
          var cards := GetOr(model.fields, "results", JArr([]));
          // logging `len(job_cards)` raises for anything without a length
          if cards.JArr? || cards.JObj? || cards.JStr? then cards else JArr([])
  }

  /** `extract_mosaic_data`: the HTML is None when `page.content()` raises. */
  function ExtractMosaicData(env: Env, page: Page): Json {
    match page.html
    case None => JArr([])
    case Some(html) => CardsOf(Utils.ExtractJsonFromScript(env.parse, MosaicCapture, html))
  }

  /** A well-formed page hands back its `results` list unchanged. */
  lemma MosaicResults(env: Env, page: Page, obj: string, rest: string, results: seq<Json>)
    requires |obj| >= 2 && obj[0] == '{' && obj[|obj| - 1] == '}'
    requires forall p :: 0 <= p < |obj| - 1 ==> !(obj[p] == '}' && obj[p + 1] == ';')
    requires page.html == Some(MOSAIC_PREFIX + "=" + obj + ";" + rest)
    requires env.parse(obj) ==
      Some(JObj(map["metaData" := JObj(map["mosaicProviderJobCardsModel" :=
        JObj(map["results" := JArr(results)])])]))
    ensures ExtractMosaicData(env, page) == JArr(results)
  {
    CaptureEmbedded(obj, rest);
  }

  /** No HTML, no match, or a capture that is not JSON all give []. */
  lemma MosaicMisses(env: Env, page: Page)
    ensures page.html.None? ==> ExtractMosaicData(env, page) == JArr([])
    ensures page.html.Some? && MosaicCapture(page.html.value).None? ==> ExtractMosaicData(env, page) == JArr([])
    ensures (page.html.Some? && MosaicCapture(page.html.value).Some? &&
             env.parse(MosaicCapture(page.html.value).value).None?) ==>
      ExtractMosaicData(env, page) == JArr([])
  {
  }
}
