/** Form encoding of query parameters as Python's `urllib.parse.urlencode`
    does it with its default `quote_plus`: unreserved characters are kept, a
    space becomes `+`, every other character becomes `%XX` escapes of its
    UTF-8 bytes, and the pairs are joined as `k=v` with `&`. A decoder is
    defined beside it so that the encoding can be shown to lose nothing. */
module UrlEncoding {
  import opened Common

  /** Characters `quote_plus` never escapes: letters, digits and `_.-~`. */
  predicate Unreserved(c: char) {
    ('A' <= c <= 'Z') || ('a' <= c <= 'z') || ('0' <= c <= '9') || c == '_' || c == '.' || c == '-' || c == '~'
  }

  /** A character that may appear in the output of `QuotePlus`. */
  predicate UrlSafe(c: char) {
    Unreserved(c) || c == '+' || c == '%'
  }

  predicate IsAscii(s: string) {
    forall k :: 0 <= k < |s| ==> s[k] as int < 128
  }

  predicate IsHex(c: char) {
    ('0' <= c <= '9') || ('A' <= c <= 'F') || ('a' <= c <= 'f')
  }

  function HexDigit(n: nat): (c: char)
    requires n < 16
    ensures IsHex(c) && ('0' <= c <= '9' || 'A' <= c <= 'F')
  {
    "0123456789ABCDEF"[n]
  }

  function HexValue(c: char): (n: nat)
    requires IsHex(c)
    ensures n < 16
  {
    if '0' <= c <= '9' then c as int - '0' as int
    else if 'A' <= c <= 'F' then c as int - 'A' as int + 10
    else c as int - 'a' as int + 10
  }

  lemma HexRoundTrip(n: nat)
    requires n < 16
    ensures HexValue(HexDigit(n)) == n
  {
  }

  /** The UTF-8 encoding of one code point, as byte values. */
  function Utf8(c: char): (bytes: seq<nat>)
    ensures 1 <= |bytes| <= 4
    ensures forall k :: 0 <= k < |bytes| ==> bytes[k] < 256
    ensures c as int < 128 ==> bytes == [c as int]
  {
    var cp := c as int;
    if cp < 0x80 then [cp]
    else if cp < 0x800 then [0xC0 + cp / 0x40, 0x80 + cp % 0x40]
    else if cp < 0x10000 then [0xE0 + cp / 0x1000, 0x80 + (cp / 0x40) % 0x40, 0x80 + cp % 0x40]
    else [0xF0 + cp / 0x40000, 0x80 + (cp / 0x1000) % 0x40, 0x80 + (cp / 0x40) % 0x40, 0x80 + cp % 0x40]
  }

  /** `%XX` for every byte, upper-case hexadecimal. */
  function PercentBytes(bytes: seq<nat>): (r: string)
    requires forall k :: 0 <= k < |bytes| ==> bytes[k] < 256
    ensures |r| == 3 * |bytes|
    ensures forall k :: 0 <= k < |r| ==> UrlSafe(r[k])
  {
    if bytes == [] then []
    else ['%', HexDigit(bytes[0] / 16), HexDigit(bytes[0] % 16)] + PercentBytes(bytes[1..])
  }

  /** `quote_plus` of a single character. */
  function QuoteChar(c: char): (r: string)
    ensures |r| > 0
    ensures forall k :: 0 <= k < |r| ==> UrlSafe(r[k])
    ensures Unreserved(c) <==> r == [c]
  {
    if Unreserved(c) then [c]
    else if c == ' ' then "+"
    else PercentBytes(Utf8(c))
  }

  /** Python's `quote_plus(s, safe='')`. */
  function QuotePlus(s: string): (r: string)
    ensures forall k :: 0 <= k < |r| ==> UrlSafe(r[k])
    ensures (forall k :: 0 <= k < |s| ==> Unreserved(s[k])) ==> r == s
  {
    if s == [] then []
    else QuoteChar(s[0]) + QuotePlus(s[1..])
  }

  /** Python's `unquote_plus` for text whose escapes stand for ASCII bytes. */
  function Unquote(s: string): string
    decreases |s|
  {
    if s == [] then []
    else if s[0] == '+' then " " + Unquote(s[1..])
    else if s[0] == '%' && |s| >= 3 && IsHex(s[1]) && IsHex(s[2]) then
      [(16 * HexValue(s[1]) + HexValue(s[2])) as char] + Unquote(s[3..])
    else [s[0]] + Unquote(s[1..])
  }

  lemma UnquoteQuoteChar(c: char, rest: string)
    requires c as int < 128
    ensures Unquote(QuoteChar(c) + rest) == [c] + Unquote(rest)
  {
    var q := QuoteChar(c) + rest;
    if Unreserved(c) {
      assert q[1..] == rest;
    } else if c == ' ' {
      assert q[1..] == rest;
    } else {
      var n := c as int;
      assert QuoteChar(c) == ['%', HexDigit(n / 16), HexDigit(n % 16)];
      HexRoundTrip(n / 16);
      HexRoundTrip(n % 16);
      assert q[3..] == rest;
    }
  }

  /** Decoding undoes `quote_plus` on ASCII text. */
  lemma {:induction false} UnquoteQuotePlus(s: string)
    requires IsAscii(s)
    ensures Unquote(QuotePlus(s)) == s
  {
    if s != [] {
      assert IsAscii(s[1..]) by {
        forall k | 0 <= k < |s[1..]| ensures s[1..][k] as int < 128 {
          assert s[1..][k] == s[k + 1];
        }
      }
      UnquoteQuotePlus(s[1..]);
      UnquoteQuoteChar(s[0], QuotePlus(s[1..]));
      assert [s[0]] + s[1..] == s;
    }
  }

  /** `sep.join(parts)`. */
  function Join(parts: seq<string>, sep: char): string {
    if parts == [] then []
    else if |parts| == 1 then parts[0]
    else parts[0] + [sep] + Join(parts[1..], sep)
  }

  /** `s.split(sep)`: always at least one part. */
  function Split(s: string, sep: char): (parts: seq<string>)
    ensures |parts| > 0
    decreases |s|
  {
    if s == [] then [""]
    else
      var rest := Split(s[1..], sep);
      if s[0] == sep then [""] + rest
      else [[s[0]] + rest[0]] + rest[1..]
  }

  predicate Free(s: string, sep: char) {
    forall k :: 0 <= k < |s| ==> s[k] != sep
  }

  lemma {:induction false} SplitFree(a: string, sep: char)
    requires Free(a, sep)
    ensures Split(a, sep) == [a]
  {
    if a != [] {
      SplitFree(a[1..], sep);
      assert [a[0]] + a[1..] == a;
    }
  }

  lemma {:induction false} SplitAt(a: string, b: string, sep: char)
    requires Free(a, sep)
    ensures Split(a + [sep] + b, sep) == [a] + Split(b, sep)
  {
    var s := a + [sep] + b;
    if a == [] {
      assert s[1..] == b;
    } else {
      assert s[1..] == a[1..] + [sep] + b;
      SplitAt(a[1..], b, sep);
      assert [a[0]] + a[1..] == a;
    }
  }

  /** Splitting undoes joining when no part contains the separator. */
  lemma {:induction false} SplitJoin(parts: seq<string>, sep: char)
    requires |parts| > 0
    requires forall i :: 0 <= i < |parts| ==> Free(parts[i], sep)
    ensures Split(Join(parts, sep), sep) == parts
  {
    if |parts| == 1 {
      SplitFree(parts[0], sep);
    } else {
      SplitJoin(parts[1..], sep);
      SplitAt(parts[0], Join(parts[1..], sep), sep);
      assert [parts[0]] + parts[1..] == parts;
    }
  }

  function EncodePair(key: string, value: string): string {
    QuotePlus(key) + "=" + QuotePlus(value)
  }

  function EncodePairs(params: seq<(string, string)>): (parts: seq<string>)
    ensures |parts| == |params|
  {
    if params == [] then [] else [EncodePair(params[0].0, params[0].1)] + EncodePairs(params[1..])
  }

  /** `urlencode(params)` for parameters given in insertion order. */
  function UrlEncode(params: seq<(string, string)>): string {
    Join(EncodePairs(params), '&')
  }

  function DecodePair(part: string): (string, string) {
    var kv := Split(part, '=');
    (Unquote(kv[0]), Unquote(if |kv| > 1 then kv[1] else ""))
  }

  function DecodePairs(parts: seq<string>): seq<(string, string)> {
    if parts == [] then [] else [DecodePair(parts[0])] + DecodePairs(parts[1..])
  }

  /** Reads a query string back into its ordered parameters. */
  function ParseQuery(query: string): seq<(string, string)> {
    DecodePairs(Split(query, '&'))
  }

  lemma QuotePlusFree(s: string, sep: char)
    requires !UrlSafe(sep)
    ensures Free(QuotePlus(s), sep)
  {
  }

  lemma DecodeEncodePair(key: string, value: string)
    requires IsAscii(key) && IsAscii(value)
    ensures DecodePair(EncodePair(key, value)) == (key, value)
  {
    QuotePlusFree(key, '=');
    QuotePlusFree(value, '=');
    SplitAt(QuotePlus(key), QuotePlus(value), '=');
    SplitFree(QuotePlus(value), '=');
    UnquoteQuotePlus(key);
    UnquoteQuotePlus(value);
  }

  predicate AsciiParams(params: seq<(string, string)>) {
    forall i :: 0 <= i < |params| ==> IsAscii(params[i].0) && IsAscii(params[i].1)
  }

  lemma {:induction false} DecodeEncodePairs(params: seq<(string, string)>)
    requires AsciiParams(params)
    ensures DecodePairs(EncodePairs(params)) == params
  {
    if params != [] {
      DecodeEncodePair(params[0].0, params[0].1);
      assert AsciiParams(params[1..]) by {
        forall i | 0 <= i < |params[1..]|
          ensures IsAscii(params[1..][i].0) && IsAscii(params[1..][i].1)
        {
          assert params[1..][i] == params[i + 1];
        }
      }
      DecodeEncodePairs(params[1..]);
      assert [params[0]] + params[1..] == params;
    }
  }

  lemma {:induction false} EncodedPairsFree(params: seq<(string, string)>)
    ensures forall i :: 0 <= i < |params| ==> Free(EncodePairs(params)[i], '&')
  {
    if params != [] {
      QuotePlusFree(params[0].0, '&');
      QuotePlusFree(params[0].1, '&');
      EncodedPairsFree(params[1..]);
    }
  }

  /** The encoded query decodes back to the same parameters in the same
      order, whenever keys and values are ASCII text. */
  lemma UrlEncodeRoundTrip(params: seq<(string, string)>)
    requires |params| > 0
    requires AsciiParams(params)
    ensures ParseQuery(UrlEncode(params)) == params
  {
    EncodedPairsFree(params);
    SplitJoin(EncodePairs(params), '&');
    DecodeEncodePairs(params);
  }
}
