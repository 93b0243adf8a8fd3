/** scraper/adapters/indeed/pagination.py: the search-results URL for one page,
    with its query in application/x-www-form-urlencoded form as Python's
    `urllib.parse.urlencode` writes it (UTF-8 bytes; the unreserved characters
    of section 2.3 of RFC 3986 kept, space as '+', every other byte as %XX per
    section 2.1). A reference decoder is given beside it so that the encoding can
    be shown to lose nothing. */
module Pagination {
  import opened Outcomes
  import opened Selectors
  import Text

  newtype byte = b: int | 0 <= b < 256

  /** The UTF-8 encoding of one Unicode scalar value. */
  function Utf8Char(c: char): (r: seq<byte>)
    ensures 1 <= |r| <= 4
    ensures (c as int) < 128 <==> |r| == 1
    ensures (c as int) < 128 ==> r == [c as int as byte]
    ensures forall k :: 0 <= k < |r| ==> (|r| > 1 <==> r[k] >= 128)
  {
    var cp := c as int;
    if cp < 0x80 then [cp as byte]
    else if cp < 0x800 then [(0xC0 + cp / 64) as byte, (0x80 + cp % 64) as byte]
    else if cp < 0x10000 then
      [(0xE0 + cp / 4096) as byte, (0x80 + (cp / 64) % 64) as byte, (0x80 + cp % 64) as byte]
    else
      [(0xF0 + cp / 262144) as byte, (0x80 + (cp / 4096) % 64) as byte,
       (0x80 + (cp / 64) % 64) as byte, (0x80 + cp % 64) as byte]
  }

  function Utf8Encode(s: string): (r: seq<byte>)
    ensures |r| >= |s|
  {
    if s == [] then [] else Utf8Char(s[0]) + Utf8Encode(s[1..])
  }

  /** Bytes `quote_plus` never escapes: ASCII letters, digits and "_.-~". */
  predicate Unreserved(b: byte) {
    (65 <= b <= 90) || (97 <= b <= 122) || (48 <= b <= 57) || b == 95 || b == 46 || b == 45 || b == 126
  }

  function HexDigit(d: int): (c: char)
    requires 0 <= d < 16
    ensures IsHex(c) && HexValue(c) == d
  {
    if d < 10 then (48 + d) as char else (55 + d) as char
  }

  predicate IsHex(c: char) {
    ('0' <= c <= '9') || ('A' <= c <= 'F') || ('a' <= c <= 'f')
  }

  function HexValue(c: char): (d: int)
    requires IsHex(c)
    ensures 0 <= d < 16
  {
    if '0' <= c <= '9' then c as int - 48
    else if 'A' <= c <= 'F' then c as int - 55
    else c as int - 87
  }

  /** One byte as `quote_plus(..., safe='')` writes it. */
  function QuoteByte(b: byte): (r: string)
    ensures forall k :: 0 <= k < |r| ==> r[k] != '&' && r[k] != '=' && r[k] != ' ' && (r[k] as int) < 128
  {
    if Unreserved(b) then [b as int as char]
    else if b == 32 then "+"
    else ['%', HexDigit(b as int / 16), HexDigit(b as int % 16)]
  }

  function QuotePlusBytes(bs: seq<byte>): (r: string)
    ensures forall k :: 0 <= k < |r| ==> r[k] != '&' && r[k] != '=' && r[k] != ' ' && (r[k] as int) < 128
  {
    if bs == [] then [] else QuoteByte(bs[0]) + QuotePlusBytes(bs[1..])
  }

  /** `quote_plus(s)`: an encoded value never holds a raw '&', '=' or space, so
      the pairs of a query stay separable. */
  function QuotePlus(s: string): (r: string)
    ensures forall k :: 0 <= k < |r| ==> r[k] != '&' && r[k] != '=' && r[k] != ' '
  {
    QuotePlusBytes(Utf8Encode(s))
  }

  /** `urlencode(pairs)`: "k=v" pairs in the given order joined by '&'. */
  function UrlEncode(pairs: seq<(string, string)>): string {
    if pairs == [] then []
    else if |pairs| == 1 then QuotePlus(pairs[0].0) + "=" + QuotePlus(pairs[0].1)
    else QuotePlus(pairs[0].0) + "=" + QuotePlus(pairs[0].1) + "&" + UrlEncode(pairs[1..])
  }

  /** The parameters in their fixed order q, l, sort, start; sort is always "date". */
  function SerpParams(query: string, location: string, start: int): seq<(string, string)> {
    [("q", query), ("l", location), ("sort", "date"), ("start", Text.IntToString(start))]
  }

  /** `build_serp_url`: the offset is page_num * jobs_per_page. */
  function BuildSerpUrl(query: string, location: string, pageNum: int, jobsPerPage: int): string {
    SEARCH_URL + "?" + UrlEncode(SerpParams(query, location, pageNum * jobsPerPage))
  }

  // ---------------------------------------------------------------------------
  // Reference decoding.

  /** `unquote_plus` into bytes: '+' is a space, "%XY" a byte, any other ASCII
      character itself; None on a bad escape or a non-ASCII character. */
  function UnquotePlus(s: string): Option<seq<byte>>
    decreases |s|
  {
    if s == [] then Some([])
    else if s[0] == '+' then Prepend(32, UnquotePlus(s[1..]))
    else if s[0] == '%' then
      if |s| >= 3 && IsHex(s[1]) && IsHex(s[2]) then
        Prepend((16 * HexValue(s[1]) + HexValue(s[2])) as byte, UnquotePlus(s[3..]))
      else None
    else if (s[0] as int) < 128 then Prepend(s[0] as int as byte, UnquotePlus(s[1..]))
    else None
  }

  function Prepend(b: byte, rest: Option<seq<byte>>): Option<seq<byte>> {
    match rest
    case None => None
    case Some(bs) => Some([b] + bs)
  }

  /** `s.split(sep)`: the pieces between separators, at least one. */
  function Split(s: string, sep: char): (r: seq<string>)
    ensures |r| >= 1
    decreases |s|
  {
    if s == [] then [[]]
    else if s[0] == sep then [[]] + Split(s[1..], sep)
    else
      var rest := Split(s[1..], sep);
      [[s[0]] + rest[0]] + rest[1..]
  }

  /** Name and value of one "k=v" piece, split at its first '='. */
  function SplitPair(part: string): Option<(string, string)> {
    if part == [] then None
    else if part[0] == '=' then Some(([], part[1..]))
    else
      match SplitPair(part[1..])
      case None => None
      case Some(kv) => Some(([part[0]] + kv.0, kv.1))
  }

  function DecodePair(part: string): Option<(seq<byte>, seq<byte>)> {
    match SplitPair(part)
    case None => None
    case Some(kv) =>
      match UnquotePlus(kv.0)
      case None => None
      case Some(k) =>
        match UnquotePlus(kv.1)
        case None => None
        case Some(v) => Some((k, v))
  }

  function DecodeAll(parts: seq<string>): Option<seq<(seq<byte>, seq<byte>)>> {
    if parts == [] then Some([])
    else
      match DecodePair(parts[0])
      case None => None
      case Some(kv) =>
        match DecodeAll(parts[1..])
        case None => None
        case Some(rest) => Some([kv] + rest)
  }

  /** The name/value byte strings a form-encoded query carries. */
  function DecodeQuery(query: string): Option<seq<(seq<byte>, seq<byte>)>> {
    DecodeAll(Split(query, '&'))
  }

  // ---------------------------------------------------------------------------
  // Properties.

  lemma QuoteByteRoundTrip(b: byte, rest: string)
    ensures UnquotePlus(QuoteByte(b) + rest) == Prepend(b, UnquotePlus(rest))
  {
    if Unreserved(b) {
      assert (QuoteByte(b) + rest)[1..] == rest;
    } else if b == 32 {
      assert (QuoteByte(b) + rest)[1..] == rest;
    } else {
      var s := QuoteByte(b) + rest;
      assert s[3..] == rest;
      assert 16 * (b as int / 16) + b as int % 16 == b as int;
    }
  }

  /** Decoding inverts the byte-level encoding. */
  lemma {:induction false} QuotePlusBytesRoundTrip(bs: seq<byte>)
    ensures UnquotePlus(QuotePlusBytes(bs)) == Some(bs)
  {
    if bs != [] {
      QuotePlusBytesRoundTrip(bs[1..]);
      QuoteByteRoundTrip(bs[0], QuotePlusBytes(bs[1..]));
      assert [bs[0]] + bs[1..] == bs;
    }
  }

  /** `unquote_plus(quote_plus(s))` gives back the UTF-8 bytes of s. */
  lemma QuotePlusRoundTrip(s: string)
    ensures UnquotePlus(QuotePlus(s)) == Some(Utf8Encode(s))
  {
    QuotePlusBytesRoundTrip(Utf8Encode(s));
  }

  lemma {:induction false} SplitPlain(a: string, sep: char)
    requires forall k :: 0 <= k < |a| ==> a[k] != sep
    ensures Split(a, sep) == [a]
    decreases |a|
  {
    if a != [] {
      SplitPlain(a[1..], sep);
      assert [a[0]] + a[1..] == a;
    }
  }

  lemma {:induction false} SplitAt(a: string, sep: char, b: string)
    requires forall k :: 0 <= k < |a| ==> a[k] != sep
    ensures Split(a + [sep] + b, sep) == [a] + Split(b, sep)
    decreases |a|
  {
    if a == [] {
      assert a + [sep] + b == [sep] + b;
      assert ([sep] + b)[1..] == b;
    } else {
      SplitAt(a[1..], sep, b);
      assert (a + [sep] + b)[1..] == a[1..] + [sep] + b;
      assert [a[0]] + a[1..] == a;
    }
  }

  lemma {:induction false} SplitPairAt(k: string, v: string)
    requires forall i :: 0 <= i < |k| ==> k[i] != '='
    ensures SplitPair(k + "=" + v) == Some((k, v))
    decreases |k|
  {
    if k == [] {
      assert k + "=" + v == "=" + v;
      assert ("=" + v)[1..] == v;
    } else {
      SplitPairAt(k[1..], v);
      assert (k + "=" + v)[1..] == k[1..] + "=" + v;
      assert [k[0]] + k[1..] == k;
    }
  }

  /** The pieces `urlencode` writes, one per pair. */
  function EncodedPieces(pairs: seq<(string, string)>): (r: seq<string>)
    ensures |r| == |pairs|
    ensures forall i :: 0 <= i < |r| ==> forall k :: 0 <= k < |r[i]| ==> r[i][k] != '&'
  {
    if pairs == [] then []
    else [QuotePlus(pairs[0].0) + "=" + QuotePlus(pairs[0].1)] + EncodedPieces(pairs[1..])
  }

  /** The encoded query splits on '&' into exactly one piece per pair, in order. */
  lemma {:induction false} UrlEncodeSeparable(pairs: seq<(string, string)>)
    requires pairs != []
    ensures Split(UrlEncode(pairs), '&') == EncodedPieces(pairs)
    decreases |pairs|
  {
    var head := QuotePlus(pairs[0].0) + "=" + QuotePlus(pairs[0].1);
    assert forall k :: 0 <= k < |head| ==> head[k] != '&';
    if |pairs| == 1 {
      SplitPlain(head, '&');
    } else {
      UrlEncodeSeparable(pairs[1..]);
      SplitAt(head, '&', UrlEncode(pairs[1..]));
    }
  }

  function Utf8Pairs(pairs: seq<(string, string)>): (r: seq<(seq<byte>, seq<byte>)>)
    ensures |r| == |pairs|
    ensures forall i :: 0 <= i < |r| ==> r[i] == (Utf8Encode(pairs[i].0), Utf8Encode(pairs[i].1))
  {
    if pairs == [] then [] else [(Utf8Encode(pairs[0].0), Utf8Encode(pairs[0].1))] + Utf8Pairs(pairs[1..])
  }

  /** Round trip: decoding `urlencode(pairs)` gives back every name and value, as
      UTF-8 bytes, in order. */
  lemma {:induction false} UrlEncodeRoundTrip(pairs: seq<(string, string)>)
    requires pairs != []
    ensures DecodeQuery(UrlEncode(pairs)) == Some(Utf8Pairs(pairs))
  {
    UrlEncodeSeparable(pairs);
    DecodePiecesRoundTrip(pairs);
  }

  lemma {:induction false} DecodePiecesRoundTrip(pairs: seq<(string, string)>)
    ensures DecodeAll(EncodedPieces(pairs)) == Some(Utf8Pairs(pairs))
    decreases |pairs|
  {
    if pairs != [] {
      var k := QuotePlus(pairs[0].0);
      SplitPairAt(k, QuotePlus(pairs[0].1));
      QuotePlusRoundTrip(pairs[0].0);
      QuotePlusRoundTrip(pairs[0].1);
      DecodePiecesRoundTrip(pairs[1..]);
      assert EncodedPieces(pairs)[1..] == EncodedPieces(pairs[1..]);
    }
  }

  /** The query of a SERP URL decodes to q, l, sort=date and start=page*per-page,
      in that order. */
  lemma SerpUrlRoundTrip(query: string, location: string, pageNum: int, jobsPerPage: int)
    ensures var url := BuildSerpUrl(query, location, pageNum, jobsPerPage);
      Text.StartsWith(url, SEARCH_URL + "?") &&
      DecodeQuery(url[|SEARCH_URL| + 1..]) ==
        Some(Utf8Pairs(SerpParams(query, location, pageNum * jobsPerPage)))
  {
    var url := BuildSerpUrl(query, location, pageNum, jobsPerPage);
    assert url[..|SEARCH_URL| + 1] == SEARCH_URL + "?";
    assert url[|SEARCH_URL| + 1..] == UrlEncode(SerpParams(query, location, pageNum * jobsPerPage));
    UrlEncodeRoundTrip(SerpParams(query, location, pageNum * jobsPerPage));
  }

  /** On ASCII text UTF-8 is one byte per character, so equal encodings mean
      equal text. */
  lemma {:induction false} Utf8AsciiInjective(a: string, b: string)
    requires forall k :: 0 <= k < |a| ==> (a[k] as int) < 128
    requires forall k :: 0 <= k < |b| ==> (b[k] as int) < 128
    requires Utf8Encode(a) == Utf8Encode(b)
    ensures a == b
    decreases |a|
  {
    if a != [] {
      assert Utf8Encode(a) == [a[0] as int as byte] + Utf8Encode(a[1..]);
      assert b != [];
      assert Utf8Encode(b) == [b[0] as int as byte] + Utf8Encode(b[1..]);
      assert Utf8Encode(a)[1..] == Utf8Encode(a[1..]);
      assert Utf8Encode(b)[1..] == Utf8Encode(b[1..]);
      Utf8AsciiInjective(a[1..], b[1..]);
      assert a == [a[0]] + a[1..];
      assert b == [b[0]] + b[1..];
    }
  }

  /** Two SERP URLs with the same query and location are equal only when their
      start offsets are. */
  lemma SameUrlSameStart(query: string, location: string, a: int, b: int)
    requires UrlEncode(SerpParams(query, location, a)) == UrlEncode(SerpParams(query, location, b))
    ensures a == b
  {
    var pa := SerpParams(query, location, a);
    var pb := SerpParams(query, location, b);
    UrlEncodeRoundTrip(pa);
    UrlEncodeRoundTrip(pb);
    var sa := Text.IntToString(a);
    var sb := Text.IntToString(b);
    assert Utf8Pairs(pa)[3].1 == Utf8Encode(sa);
    assert Utf8Pairs(pb)[3].1 == Utf8Encode(sb);
    Utf8AsciiInjective(sa, sb);
    Text.IntToStringInjective(a, b);
  }

  /** With a positive page size, different page numbers give different URLs. */
  lemma DistinctPages(query: string, location: string, p1: int, p2: int, jobsPerPage: int)
    requires jobsPerPage > 0
    requires BuildSerpUrl(query, location, p1, jobsPerPage) == BuildSerpUrl(query, location, p2, jobsPerPage)
    ensures p1 == p2
  {
    var head := SEARCH_URL + "?";
    var e1 := UrlEncode(SerpParams(query, location, p1 * jobsPerPage));
    var e2 := UrlEncode(SerpParams(query, location, p2 * jobsPerPage));
    assert (head + e1)[|head|..] == e1;
    assert (head + e2)[|head|..] == e2;
    SameUrlSameStart(query, location, p1 * jobsPerPage, p2 * jobsPerPage);
    MulCancel(p1, p2, jobsPerPage);
  }

  lemma MulCancel(a: int, b: int, k: int)
    requires k > 0 && a * k == b * k
    ensures a == b
  {
    assert (a - b) * k == 0;
  }
}
