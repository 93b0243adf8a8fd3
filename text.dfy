/** String helpers that mirror the Python `str` methods the scraper relies on:
    `strip`, `strip(chars)`, `startswith`, `in` (substring), `lower`, `title`
    and `str(int)`. Case mapping covers ASCII letters only. */
module Text {

  /** The characters Python's `str.isspace` accepts, which `str.strip()` removes. */
  predicate IsSpace(c: char) {
    c == ' ' || ('\t' <= c <= '\r') || ('\U{1C}' <= c <= '\U{1F}') ||
    c == '\U{85}' || c == '\U{A0}' || c == '\U{1680}' || ('\U{2000}' <= c <= '\U{200A}') ||
    c == '\U{2028}' || c == '\U{2029}' || c == '\U{202F}' || c == '\U{205F}' || c == '\U{3000}'
  }

  /** The characters of `strip(", ")`. */
  predicate IsCommaOrSpace(c: char) {
    c == ',' || c == ' '
  }

  function TrimLeft(s: string, drop: char -> bool): (r: string)
    ensures |r| <= |s| && r == s[|s| - |r|..]
    ensures r != [] ==> !drop(r[0])
    ensures forall i :: 0 <= i < |s| - |r| ==> drop(s[i])
  {
    if s != [] && drop(s[0]) then TrimLeft(s[1..], drop) else s
  }

  function TrimRight(s: string, drop: char -> bool): (r: string)
    ensures |r| <= |s| && r == s[..|r|]
    ensures r != [] ==> !drop(r[|r| - 1])
    ensures forall i :: |r| <= i < |s| ==> drop(s[i])
  {
    if s != [] && drop(s[|s| - 1]) then TrimRight(s[..|s| - 1], drop) else s
  }

  /** `s.strip(chars)`: drop the longest prefix and suffix made of dropped characters. */
  function StripBy(s: string, drop: char -> bool): string {
    TrimRight(TrimLeft(s, drop), drop)
  }

  /** Python `s.strip()`. */
  function Strip(s: string): string {
    StripBy(s, IsSpace)
  }

  /** `strip` leaves alone a string that neither starts nor ends with a dropped
      character; in particular stripping twice is stripping once. */
  lemma StripByKeeps(s: string, drop: char -> bool)
    requires s != [] ==> !drop(s[0]) && !drop(s[|s| - 1])
    ensures StripBy(s, drop) == s
  {
  }

  lemma StripByIdempotent(s: string, drop: char -> bool)
    ensures StripBy(StripBy(s, drop), drop) == StripBy(s, drop)
  {
    var r := StripBy(s, drop);
    var l := TrimLeft(s, drop);
    assert r != [] ==> r[0] == l[0];
    StripByKeeps(r, drop);
  }

  /** A droppable prefix disappears under `TrimLeft`, a droppable suffix under `TrimRight`. */
  lemma {:induction false} TrimLeftPrefix(p: string, s: string, drop: char -> bool)
    requires forall i :: 0 <= i < |p| ==> drop(p[i])
    ensures TrimLeft(p + s, drop) == TrimLeft(s, drop)
    decreases |p|
  {
    if p != [] {
      assert (p + s)[1..] == p[1..] + s;
      TrimLeftPrefix(p[1..], s, drop);
    } else {
      assert p + s == s;
    }
  }

  lemma {:induction false} TrimRightSuffix(s: string, p: string, drop: char -> bool)
    requires forall i :: 0 <= i < |p| ==> drop(p[i])
    ensures TrimRight(s + p, drop) == TrimRight(s, drop)
    decreases |p|
  {
    if p != [] {
      assert (s + p)[..|s + p| - 1] == s + p[..|p| - 1];
      TrimRightSuffix(s, p[..|p| - 1], drop);
    } else {
      assert s + p == s;
    }
  }

  /** Text that starts and ends with a kept character survives droppable padding on
      either side: strip(pre + s + post) == s. */
  lemma StripByPadded(pre: string, s: string, post: string, drop: char -> bool)
    requires forall i :: 0 <= i < |pre| ==> drop(pre[i])
    requires forall i :: 0 <= i < |post| ==> drop(post[i])
    requires s != [] ==> !drop(s[0]) && !drop(s[|s| - 1])
    ensures StripBy(pre + s + post, drop) == s
  {
    var rest := s + post;
    assert pre + s + post == pre + rest;
    TrimLeftPrefix(pre, rest, drop);
    if s == [] {
      assert rest == post + [];
      TrimLeftPrefix(post, [], drop);
    } else {
      KeptCore(s, post, drop);
    }
  }

  /** Text starting and ending with a kept character, followed by droppable
      padding, loses only the padding. */
  lemma KeptCore(s: string, post: string, drop: char -> bool)
    requires forall i :: 0 <= i < |post| ==> drop(post[i])
    requires s != [] && !drop(s[0]) && !drop(s[|s| - 1])
    ensures StripBy(s + post, drop) == s
  {
    assert (s + post)[0] == s[0];
    assert TrimLeft(s + post, drop) == s + post;
    TrimRightSuffix(s, post, drop);
    assert TrimRight(s, drop) == s;
  }

  /** Stripping yields the empty string exactly when every character is droppable. */
  lemma StripByEmpty(s: string, drop: char -> bool)
    ensures StripBy(s, drop) == [] <==> forall i :: 0 <= i < |s| ==> drop(s[i])
  {
    var l := TrimLeft(s, drop);
    assert l != [] ==> l[0] == s[|s| - |l|];
  }

  function StartsWith(s: string, prefix: string): bool {
    |prefix| <= |s| && s[..|prefix|] == prefix
  }

  /** `needle in s` for strings: `needle` occurs at some position of `s`. */
  predicate OccursAt(s: string, needle: string, i: int) {
    0 <= i && i + |needle| <= |s| && s[i..i + |needle|] == needle
  }

  function Contains(s: string, needle: string): (b: bool)
    ensures b <==> exists i :: OccursAt(s, needle, i)
  {
    if StartsWith(s, needle) then
      assert OccursAt(s, needle, 0);
      true
    else if s == [] then
      false
    else
      var b := Contains(s[1..], needle);
      assert forall i :: OccursAt(s[1..], needle, i) ==> OccursAt(s, needle, i + 1);
      assert forall i :: OccursAt(s, needle, i) && i > 0 ==> OccursAt(s[1..], needle, i - 1);
      b
  }

  predicate IsUpper(c: char) { 'A' <= c <= 'Z' }
  predicate IsLower(c: char) { 'a' <= c <= 'z' }
  predicate IsLetter(c: char) { IsUpper(c) || IsLower(c) }

  function LowerChar(c: char): char {
    if IsUpper(c) then (c as int + 32) as char else c
  }

  function UpperChar(c: char): char {
    if IsLower(c) then (c as int - 32) as char else c
  }

  /** Python `s.lower()`, for ASCII letters. */
  function Lower(s: string): (r: string)
    ensures |r| == |s| && forall i :: 0 <= i < |s| ==> r[i] == LowerChar(s[i])
  {
    if s == [] then [] else [LowerChar(s[0])] + Lower(s[1..])
  }

  /** Python `s.title()`: a letter is upper-cased when it follows a non-letter
      and lower-cased when it follows a letter. */
  function TitleCaseFrom(s: string, afterLetter: bool): (r: string)
    ensures |r| == |s|
  {
    if s == [] then []
    else
      var c := if afterLetter then LowerChar(s[0]) else UpperChar(s[0]);
      [c] + TitleCaseFrom(s[1..], IsLetter(s[0]))
  }

  function TitleCase(s: string): string {
    TitleCaseFrom(s, false)
  }

  function DigitChar(d: nat): char
    requires d < 10
  {
    ('0' as int + d) as char
  }

  /** Python `str(n)` for a natural number. */
  function NatToString(n: nat): (r: string)
    ensures |r| > 0
    ensures forall i :: 0 <= i < |r| ==> '0' <= r[i] <= '9'
    decreases n
  {
    if n < 10 then [DigitChar(n)] else NatToString(n / 10) + [DigitChar(n % 10)]
  }

  /** Python `str(i)` for any integer: a '-' sign for negative values. */
  function IntToString(i: int): (r: string)
    ensures |r| > 0
    ensures forall k :: 0 <= k < |r| ==> ('0' <= r[k] <= '9') || (k == 0 && r[k] == '-' && i < 0)
  {
    if i < 0 then "-" + NatToString(-i) else NatToString(i)
  }

  /** Reads back a non-empty run of decimal digits: the partner of `NatToString`. */
  function ParseNat(s: string): nat
    requires forall i :: 0 <= i < |s| ==> '0' <= s[i] <= '9'
    decreases |s|
  {
    if s == [] then 0 else 10 * ParseNat(s[..|s| - 1]) + (s[|s| - 1] as int - '0' as int)
  }

  function ParseInt(s: string): int
    requires s != []
    requires forall i :: (if s[0] == '-' then 1 else 0) <= i < |s| ==> '0' <= s[i] <= '9'
  {
    if s[0] == '-' then 0 - ParseNat(s[1..]) else ParseNat(s)
  }

  lemma {:induction false} ParseNatToString(n: nat)
    ensures ParseNat(NatToString(n)) == n
    decreases n
  {
    if n >= 10 {
      var r := NatToString(n);
      assert r[..|r| - 1] == NatToString(n / 10);
      ParseNatToString(n / 10);
    }
  }

  /** `str(i)` can be read back, so distinct integers have distinct renderings. */
  lemma IntToStringRoundTrip(i: int)
    ensures var r := IntToString(i);
      (forall k :: (if r[0] == '-' then 1 else 0) <= k < |r| ==> '0' <= r[k] <= '9') &&
      ParseInt(r) == i
  {
    if i < 0 {
      var r := IntToString(i);
      assert r[1..] == NatToString(-i);
      ParseNatToString(-i);
    } else {
      ParseNatToString(i);
    }
  }

  lemma IntToStringInjective(i: int, j: int)
    requires IntToString(i) == IntToString(j)
    ensures i == j
  {
    IntToStringRoundTrip(i);
    IntToStringRoundTrip(j);
  }
}
