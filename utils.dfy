/** scraper/adapters/indeed/utils.py: the ordered selector fallback with its
    "Unknown <Field>" sentinel, and match-then-parse of an embedded JSON blob. */
module Utils {
  import opened Outcomes
  import opened Json
  import opened Browser
  import Text

  /** A selector starting with "//" is an XPath expression and gets the "xpath="
      engine prefix; every other selector is used as written. */
  function NormalizeSelector(selector: string): (r: string)
    ensures Text.StartsWith(selector, "//") ==> r == "xpath=" + selector
    ensures !Text.StartsWith(selector, "//") ==> r == selector
  {
    assert Text.StartsWith(selector, "//") ==> selector[0] == '/' && !Text.StartsWith(selector, "xpath=");
    if Text.StartsWith(selector, "//") || Text.StartsWith(selector, "xpath=") then
      if !Text.StartsWith(selector, "xpath=") then "xpath=" + selector else selector
    else
      selector
  }

  /** What one selector contributes: the stripped text of its first match when
      that text is not blank; None when nothing matched, the text was blank, or
      the query raised. */
  function SelectorText(root: Node, selector: string): Option<string> {
    match Locate(root, NormalizeSelector(selector))
    case Raised => None
    case Hits(ns) =>
      if ns != [] && Text.Strip(ns[0].text) != [] then Some(Text.Strip(ns[0].text)) else None
  }

  function FirstHit(root: Node, selectors: seq<string>): Option<string> {
    if selectors == [] then None
    else if SelectorText(root, selectors[0]).Some? then SelectorText(root, selectors[0])
    else FirstHit(root, selectors[1..])
  }

  /** "Unknown " followed by the field name in title case, e.g. "Unknown Title". */
  function Sentinel(fieldName: string): string {
    "Unknown " + Text.TitleCase(fieldName)
  }

  /** The value `safe_extract` returns. */
  function SafeExtractOf(root: Node, selectors: seq<string>, fieldName: string): string {
    match FirstHit(root, selectors)
    case Some(t) => t
    case None => Sentinel(fieldName)
  }

  /** `safe_extract`: try the selectors in list order and return the first
      non-blank stripped text, or the sentinel when none yields one. */
  method SafeExtract(root: Node, selectors: seq<string>, fieldName: string) returns (r: string)
    ensures r == SafeExtractOf(root, selectors, fieldName)
    ensures Text.Strip(r) != []
  {
    var i := 0;
    while i < |selectors|
      invariant 0 <= i <= |selectors|
      invariant FirstHit(root, selectors) == FirstHit(root, selectors[i..])
    {
      var selector := selectors[i];
      if Text.StartsWith(selector, "//") || Text.StartsWith(selector, "xpath=") {
        if !Text.StartsWith(selector, "xpath=") {
          selector := "xpath=" + selector;
        }
      }
      assert selector == NormalizeSelector(selectors[i]);
      FirstHitStep(root, selectors, i);
      match Locate(root, selector) {
        case Raised =>
        case Hits(ns) =>
          if ns != [] {
            var text := ns[0].text;
            if Text.Strip(text) != [] {
              r := Text.Strip(text);
              assert FirstHit(root, selectors) == Some(r);
              SafeExtractNeverBlank(root, selectors, fieldName);
              return;
            }
          }
      }
      assert SelectorText(root, selectors[i]).None?;
      i := i + 1;
    }
    assert selectors[i..] == [];
    r := Sentinel(fieldName);
    SafeExtractNeverBlank(root, selectors, fieldName);
  }

  /** One turn of the selector loop: selector i decides when it yields text,
      and otherwise the search goes on from i + 1. */
  lemma FirstHitStep(root: Node, selectors: seq<string>, i: nat)
    requires i < |selectors|
    ensures FirstHit(root, selectors[i..]) ==
      if SelectorText(root, selectors[i]).Some? then SelectorText(root, selectors[i])
      else FirstHit(root, selectors[i + 1..])
  {
    assert selectors[i..][0] == selectors[i];
    assert selectors[i..][1..] == selectors[i + 1..];
  }

  /** The selector at index i decides the result when it yields text and every
      earlier one does not; the selectors after it are never consulted, so any
      other tail `rest` gives the same result. */
  lemma {:induction false} SafeExtractFirstHit(root: Node, selectors: seq<string>, fieldName: string,
                                               i: nat, rest: seq<string>)
    requires i < |selectors| && SelectorText(root, selectors[i]).Some?
    requires forall j :: 0 <= j < i ==> SelectorText(root, selectors[j]).None?
    ensures SafeExtractOf(root, selectors, fieldName) == SelectorText(root, selectors[i]).value
    ensures SafeExtractOf(root, selectors[..i + 1] + rest, fieldName) == SafeExtractOf(root, selectors, fieldName)
  {
    FirstHitAt(root, selectors, i);
    var s' := selectors[..i + 1] + rest;
    assert forall j :: 0 <= j <= i ==> s'[j] == selectors[j];
    FirstHitAt(root, s', i);
  }

  lemma FirstHitAt(root: Node, selectors: seq<string>, i: nat)
    requires i < |selectors| && SelectorText(root, selectors[i]).Some?
    requires forall j :: 0 <= j < i ==> SelectorText(root, selectors[j]).None?
    ensures FirstHit(root, selectors) == SelectorText(root, selectors[i])
  {
    FirstHitFrom(root, selectors, 0, i);
    assert selectors[0..] == selectors;
  }

  /** The search from selector k, k <= i, ends at selector i when i is the
      first one from k on that yields text. */
  lemma {:induction false} FirstHitFrom(root: Node, selectors: seq<string>, k: nat, i: nat)
    requires k <= i < |selectors| && SelectorText(root, selectors[i]).Some?
    requires forall j :: k <= j < i ==> SelectorText(root, selectors[j]).None?
    ensures FirstHit(root, selectors[k..]) == SelectorText(root, selectors[i])
    decreases i - k
  {
    FirstHitStep(root, selectors, k);
    if k < i {
      FirstHitFrom(root, selectors, k + 1, i);
    }
  }

  /** When no selector yields text (none matched, all were blank, or all raised)
      the result is the sentinel. */
  lemma {:induction false} SafeExtractAllMiss(root: Node, selectors: seq<string>, fieldName: string)
    requires forall j :: 0 <= j < |selectors| ==> SelectorText(root, selectors[j]).None?
    ensures SafeExtractOf(root, selectors, fieldName) == Sentinel(fieldName)
    decreases |selectors|
  {
    if selectors != [] {
      SafeExtractAllMiss(root, selectors[1..], fieldName);
    }
  }

  /** Conversely, a result other than a hit's text is the sentinel: the result is
      either some selector's non-blank stripped text or "Unknown <Field>". */
  lemma {:induction false} SafeExtractSources(root: Node, selectors: seq<string>, fieldName: string)
    ensures var r := SafeExtractOf(root, selectors, fieldName);
      r == Sentinel(fieldName) ||
      exists j :: 0 <= j < |selectors| && SelectorText(root, selectors[j]) == Some(r)
    decreases |selectors|
  {
    if selectors != [] && SelectorText(root, selectors[0]).None? {
      SafeExtractSources(root, selectors[1..], fieldName);
      var r := SafeExtractOf(root, selectors, fieldName);
      if r != Sentinel(fieldName) {
        var j :| 0 <= j < |selectors[1..]| && SelectorText(root, selectors[1..][j]) == Some(r);
        assert SelectorText(root, selectors[j + 1]) == Some(r);
      }
    }
  }

  /** The result is never blank: a hit is non-blank stripped text, and the
      sentinel starts with "Unknown". */
  lemma {:induction false} SafeExtractNeverBlank(root: Node, selectors: seq<string>, fieldName: string)
    ensures Text.Strip(SafeExtractOf(root, selectors, fieldName)) != []
    ensures FirstHit(root, selectors).None? ==>
      Text.StartsWith(SafeExtractOf(root, selectors, fieldName), "Unknown")
    decreases |selectors|
  {
    var r := SafeExtractOf(root, selectors, fieldName);
    if FirstHit(root, selectors).None? {
      assert r[0] == 'U' && r[..7] == "Unknown";
      Text.StripByEmpty(r, Text.IsSpace);
    } else {
      HitIsStripped(root, selectors);
      Text.StripByIdempotent(FirstHitSource(root, selectors), Text.IsSpace);
    }
  }

  /** The raw text whose stripped form is the first hit. */
  function FirstHitSource(root: Node, selectors: seq<string>): string
    requires FirstHit(root, selectors).Some?
  {
    if SelectorText(root, selectors[0]).Some? then
      Locate(root, NormalizeSelector(selectors[0])).nodes[0].text
    else FirstHitSource(root, selectors[1..])
  }

  lemma {:induction false} HitIsStripped(root: Node, selectors: seq<string>)
    requires FirstHit(root, selectors).Some?
    ensures FirstHit(root, selectors).value == Text.Strip(FirstHitSource(root, selectors))
    ensures FirstHit(root, selectors).value != []
  {
    if SelectorText(root, selectors[0]).None? {
      HitIsStripped(root, selectors[1..]);
    }
  }

  /** `extract_json_from_script`: when the pattern matches, the parse of its
      first capture group; None when nothing matched or the capture is not JSON.
      The regex search is given as `capture`, the text of group 1 of the first
      match; for the mosaic pattern it is written out as `Mosaic.MosaicCapture`,
      and `Mosaic.MosaicResults` and `Mosaic.MosaicMisses` state what the
      parse of that capture yields. */
  function ExtractJsonFromScript(parse: string -> Option<Json>, capture: string -> Option<string>,
                                 html: string): (r: Option<Json>)
    ensures capture(html).None? ==> r.None?
    ensures capture(html).Some? ==> r == parse(capture(html).value)
  {
    match capture(html)
    case None => None
    case Some(group1) => parse(group1)
  }
}
