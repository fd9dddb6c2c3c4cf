/**
 * `urllib.parse.quote_plus` and `urlencode` over a sequence of key/value
 * pairs, as used to build search URLs: each character is kept when it is an
 * ASCII letter, a digit or one of `_.-~`, a space becomes `+`, and every other
 * character becomes the `%XX` escapes of its UTF-8 bytes (upper-case hex).
 */
module UrlEncoding {
  import opened Text

  /** The characters `quote` never escapes. */
  predicate IsUnreserved(c: char) {
    'A' <= c <= 'Z' || 'a' <= c <= 'z' || '0' <= c <= '9' || c == '_' || c == '.' || c == '-' || c == '~'
  }

  predicate IsByte(b: int) {
    0 <= b < 256
  }

  /** The UTF-8 encoding of one Unicode scalar value. */
  function Utf8(c: char): (bs: seq<int>)
    ensures 1 <= |bs| <= 4
    ensures forall i :: 0 <= i < |bs| ==> IsByte(bs[i])
    ensures c as int < 0x80 <==> bs == [c as int]
  {
    var n := c as int;
    if n < 0x80 then [n]
    else if n < 0x800 then [0xC0 + n / 64, 0x80 + n % 64]
    else if n < 0x1_0000 then [0xE0 + n / 4096, 0x80 + (n / 64) % 64, 0x80 + n % 64]
    else [0xF0 + n / 262144, 0x80 + (n / 4096) % 64, 0x80 + (n / 64) % 64, 0x80 + n % 64]
  }

  /** `s.encode("utf-8")`. */
  function Utf8Bytes(s: string): seq<int> {
    if s == [] then [] else Utf8(s[0]) + Utf8Bytes(s[1..])
  }

  function HexDigit(d: int): char
    requires 0 <= d < 16
  {
    if d < 10 then ('0' as int + d) as char else ('A' as int + d - 10) as char
  }

  lemma HexDigitValue(d: int)
    requires 0 <= d < 16
    ensures IsHexDigit(HexDigit(d)) && HexValue(HexDigit(d)) == d
  {
  }

  predicate IsHexDigit(c: char) {
    '0' <= c <= '9' || 'A' <= c <= 'F' || 'a' <= c <= 'f'
  }

  function HexValue(c: char): int
    requires IsHexDigit(c)
  {
    if '0' <= c <= '9' then c as int - '0' as int
    else if 'A' <= c <= 'F' then c as int - 'A' as int + 10
    else c as int - 'a' as int + 10
  }

  /** `%XX` for each byte. */
  function Escapes(bs: seq<int>): (r: string)
    requires forall i :: 0 <= i < |bs| ==> IsByte(bs[i])
    ensures |r| == 3 * |bs|
  {
    if bs == [] then []
    else
      assert IsByte(bs[0]);
      ['%', HexDigit(bs[0] / 16), HexDigit(bs[0] % 16)] + Escapes(bs[1..])
  }

  /** How `quote_plus` writes one character. */
  function QuoteChar(c: char): string {
    if IsUnreserved(c) then [c] else if c == ' ' then "+" else Escapes(Utf8(c))
  }

  /** `quote_plus(s)` with the default empty `safe` set. */
  function QuotePlus(s: string): (r: string)
    ensures forall i :: 0 <= i < |r| ==> r[i] != '&' && r[i] != '='
  {
    if s == [] then []
    else
      var r := QuoteChar(s[0]) + QuotePlus(s[1..]);
      assert forall i :: 0 <= i < |QuoteChar(s[0])| ==> QuoteChar(s[0])[i] != '&' && QuoteChar(s[0])[i] != '=' by {
        if !IsUnreserved(s[0]) && s[0] != ' ' {
          EscapesShape(Utf8(s[0]));
        }
      }
      r
  }

  lemma {:induction false} EscapesShape(bs: seq<int>)
    requires forall i :: 0 <= i < |bs| ==> IsByte(bs[i])
    ensures forall i :: 0 <= i < |Escapes(bs)| ==> Escapes(bs)[i] == '%' || IsHexDigit(Escapes(bs)[i])
  {
    if bs != [] {
      EscapesShape(bs[1..]);
      assert IsByte(bs[0]);
      HexDigitValue(bs[0] / 16);
      HexDigitValue(bs[0] % 16);
      var head := ['%', HexDigit(bs[0] / 16), HexDigit(bs[0] % 16)];
      assert Escapes(bs) == head + Escapes(bs[1..]);
      forall i | 0 <= i < |Escapes(bs)|
        ensures Escapes(bs)[i] == '%' || IsHexDigit(Escapes(bs)[i])
      {
        if i >= 3 {
          assert Escapes(bs)[i] == Escapes(bs[1..])[i - 3];
        }
      }
    }
  }

  /**
   * `unquote_to_bytes` after `+` has been read as a space: the bytes a
   * percent-encoded string stands for.
   */
  function PercentDecode(s: string): seq<int>
    decreases |s|
  {
    if s == [] then []
    else if s[0] == '+' then [' ' as int] + PercentDecode(s[1..])
    else if s[0] == '%' && |s| >= 3 && IsHexDigit(s[1]) && IsHexDigit(s[2]) then
      [HexValue(s[1]) * 16 + HexValue(s[2])] + PercentDecode(s[3..])
    else Utf8(s[0]) + PercentDecode(s[1..])
  }

  lemma DecodeEscape(hi: char, lo: char, t: string)
    requires IsHexDigit(hi) && IsHexDigit(lo)
    ensures PercentDecode(['%', hi, lo] + t) == [HexValue(hi) * 16 + HexValue(lo)] + PercentDecode(t)
  {
    assert (['%', hi, lo] + t)[3..] == t;
  }

  lemma {:induction false} DecodeEscapes(bs: seq<int>, rest: string)
    requires forall i :: 0 <= i < |bs| ==> IsByte(bs[i])
    ensures PercentDecode(Escapes(bs) + rest) == bs + PercentDecode(rest)
  {
    if bs == [] {
      assert Escapes(bs) + rest == rest;
    } else {
      var b, tail := bs[0], bs[1..];
      assert IsByte(b);
      assert PercentDecode(Escapes(bs) + rest) == [b] + PercentDecode(Escapes(tail) + rest) by {
        var head := ['%', HexDigit(b / 16), HexDigit(b % 16)];
        assert Escapes(bs) == head + Escapes(tail);
        assert Escapes(bs) + rest == head + (Escapes(tail) + rest);
        DecodeByteEscape(b, Escapes(tail) + rest);
      }
      assert PercentDecode(Escapes(tail) + rest) == tail + PercentDecode(rest) by {
        DecodeEscapes(tail, rest);
      }
      assert bs == [b] + tail;
    }
  }

  /** One `%XX` escape decodes to the byte it was written from. */
  lemma DecodeByteEscape(b: int, t: string)
    requires IsByte(b)
    ensures PercentDecode(['%', HexDigit(b / 16), HexDigit(b % 16)] + t) == [b] + PercentDecode(t)
  {
    HexDigitValue(b / 16);
    HexDigitValue(b % 16);
    DecodeEscape(HexDigit(b / 16), HexDigit(b % 16), t);
  }

  lemma DecodeQuoteChar(c: char, rest: string)
    ensures PercentDecode(QuoteChar(c) + rest) == Utf8(c) + PercentDecode(rest)
  {
    if IsUnreserved(c) {
      assert ([c] + rest)[1..] == rest;
    } else if c == ' ' {
      assert ("+" + rest)[1..] == rest;
    } else {
      DecodeEscapes(Utf8(c), rest);
    }
  }

  /** Percent-decoding the output of `quote_plus` gives back the UTF-8 bytes of the input. */
  lemma {:induction false} QuotePlusRoundTrip(s: string)
    ensures PercentDecode(QuotePlus(s)) == Utf8Bytes(s)
  {
    if s != [] {
      DecodeQuoteChar(s[0], QuotePlus(s[1..]));
      QuotePlusRoundTrip(s[1..]);
    }
  }

  /** Text made only of unreserved characters is left as it is. */
  lemma {:induction false} QuotePlusUnreserved(s: string)
    requires forall i :: 0 <= i < |s| ==> IsUnreserved(s[i])
    ensures QuotePlus(s) == s
  {
    if s != [] {
      QuotePlusUnreserved(s[1..]);
      assert [s[0]] + s[1..] == s;
    }
  }

  /** `quote_plus` works character by character. */
  lemma {:induction false} QuotePlusAppend(a: string, b: string)
    ensures QuotePlus(a + b) == QuotePlus(a) + QuotePlus(b)
  {
    if a == [] {
      assert a + b == b;
    } else {
      assert (a + b)[1..] == a[1..] + b;
      QuotePlusAppend(a[1..], b);
    }
  }

  /** A plus sign is escaped as `%2B` (section 2.1 of RFC 3986). */
  lemma PlusEscape()
    ensures QuotePlus("+") == "%2B"
  {
    assert Utf8('+') == [43];
    assert Escapes([43]) == ['%', HexDigit(2), HexDigit(11)] + Escapes([]);
    assert QuotePlus("+") == QuoteChar('+') + QuotePlus([]);
  }

  /** `quote_plus(k) + "=" + quote_plus(v)`. */
  function EncodePair(p: (string, string)): string {
    QuotePlus(p.0) + "=" + QuotePlus(p.1)
  }

  /** A pair whose key needs no escaping. */
  lemma PlainKey(k: string, v: string)
    requires forall i :: 0 <= i < |k| ==> IsUnreserved(k[i])
    ensures EncodePair((k, v)) == k + "=" + QuotePlus(v)
  {
    QuotePlusUnreserved(k);
  }

  /** An encoded pair splits at its one `=` into the encoded key and value, and each decodes back. */
  lemma EncodePairRoundTrip(p: (string, string))
    ensures Split(EncodePair(p), '=') == [QuotePlus(p.0), QuotePlus(p.1)]
    ensures PercentDecode(QuotePlus(p.0)) == Utf8Bytes(p.0) && PercentDecode(QuotePlus(p.1)) == Utf8Bytes(p.1)
  {
    SplitAtSeparator(QuotePlus(p.0), '=', QuotePlus(p.1));
    SplitWithoutSeparator(QuotePlus(p.0), '=');
    SplitWithoutSeparator(QuotePlus(p.1), '=');
    QuotePlusRoundTrip(p.0);
    QuotePlusRoundTrip(p.1);
  }

  /** `urlencode(params)`: the encoded pairs joined by `&`, in order. */
  function UrlEncode(params: seq<(string, string)>): string {
    if params == [] then []
    else if |params| == 1 then EncodePair(params[0])
    else EncodePair(params[0]) + "&" + UrlEncode(params[1..])
  }

  lemma EncodePairHasNoAmpersand(p: (string, string))
    ensures forall i :: 0 <= i < |EncodePair(p)| ==> EncodePair(p)[i] != '&'
  {
    var a, b := QuotePlus(p.0), QuotePlus(p.1);
    forall i | 0 <= i < |EncodePair(p)|
      ensures EncodePair(p)[i] != '&'
    {
      if i < |a| {
        assert EncodePair(p)[i] == a[i];
      } else if i > |a| {
        assert EncodePair(p)[i] == b[i - |a| - 1];
      }
    }
  }

  /** Splitting an encoded query on `&` gives back one encoded pair per parameter, in order. */
  lemma {:induction false} UrlEncodeSplits(params: seq<(string, string)>)
    requires params != []
    ensures Split(UrlEncode(params), '&') == seq(|params|, i requires 0 <= i < |params| => EncodePair(params[i]))
  {
    EncodePairHasNoAmpersand(params[0]);
    SplitWithoutSeparator(EncodePair(params[0]), '&');
    if |params| > 1 {
      var tail := params[1..];
      assert Split(UrlEncode(params), '&') == [EncodePair(params[0])] + Split(UrlEncode(tail), '&') by {
        SplitAtSeparator(EncodePair(params[0]), '&', UrlEncode(tail));
      }
      UrlEncodeSplits(tail);
      assert seq(|params|, i requires 0 <= i < |params| => EncodePair(params[i]))
          == [EncodePair(params[0])] + seq(|tail|, i requires 0 <= i < |tail| => EncodePair(tail[i]));
    }
  }
}
