/**
 * The .NET string operations the decoders rely on. Strings are sequences of Unicode scalar
 * values; where .NET counts UTF-16 code units (String.Length) the count is written out.
 */
module Text {
  import opened Bytes

  /** U+FFFD, what Encoding.Unicode substitutes for bytes that do not form a character. */
  const REPLACEMENT: char := '\U{FFFD}'

  /**
   * The decoders the parser calls into and that are not modelled here: Encoding.UTF8.GetString
   * and Uri.UnescapeDataString.
   */
  datatype TextDecoders = TextDecoders(utf8: seq<Byte> -> string, unescapeData: string -> string)

  /** A UTF-16 code unit that starts a surrogate pair. */
  predicate IsHighSurrogate(u: int) { 0xD800 <= u < 0xDC00 }

  /** A UTF-16 code unit that ends a surrogate pair. */
  predicate IsLowSurrogate(u: int) { 0xDC00 <= u < 0xE000 }

  /**
   * Encoding.Unicode.GetString: UTF-16 little-endian with the replacement fallback. A surrogate
   * pair becomes one supplementary character; an unpaired surrogate and a trailing odd byte
   * each become U+FFFD.
   */
  function DecodeUtf16Le(bs: seq<Byte>): (r: string)
    ensures |r| <= (|bs| + 1) / 2
    decreases |bs|
  {
    if |bs| == 0 then ""
    else if |bs| == 1 then [REPLACEMENT]
    else
      var u := U16At(bs, 0);
      if !IsHighSurrogate(u) && !IsLowSurrogate(u) then
        [u as char] + DecodeUtf16Le(bs[2..])
      else if IsHighSurrogate(u) && |bs| >= 4 && IsLowSurrogate(U16At(bs, 2)) then
        [(0x10000 + (u - 0xD800) * 0x400 + (U16At(bs, 2) - 0xDC00)) as char] + DecodeUtf16Le(bs[4..])
      else
        [REPLACEMENT] + DecodeUtf16Le(bs[2..])
  }

  /** Encoding.Unicode.GetBytes of one character: one code unit, or a surrogate pair. */
  function EncodeUtf16LeChar(c: char): (r: seq<Byte>)
    ensures |r| == 2 || |r| == 4
  {
    var v := c as int;
    if v < 0x10000 then EncodeU16(v)
    else EncodeU16(0xD800 + (v - 0x10000) / 0x400) + EncodeU16(0xDC00 + (v - 0x10000) % 0x400)
  }

  /** Encoding.Unicode.GetBytes: the UTF-16 little-endian encoding of a string. */
  function EncodeUtf16Le(s: string): (r: seq<Byte>)
    ensures |r| % 2 == 0
  {
    if s == "" then [] else EncodeUtf16LeChar(s[0]) + EncodeUtf16Le(s[1..])
  }

  lemma {:induction false} DecodeEncodeUtf16LeChar(c: char, rest: seq<Byte>)
    ensures DecodeUtf16Le(EncodeUtf16LeChar(c) + rest) == [c] + DecodeUtf16Le(rest)
  {
    var v := c as int;
    var bs := EncodeUtf16LeChar(c) + rest;
    if v < 0x10000 {
      DecodeEncodeU16(v, [], rest);
      assert bs == [] + EncodeU16(v) + rest;
      assert bs[2..] == rest;
    } else {
      var hi, lo := 0xD800 + (v - 0x10000) / 0x400, 0xDC00 + (v - 0x10000) % 0x400;
      assert bs == [] + EncodeU16(hi) + (EncodeU16(lo) + rest);
      DecodeEncodeU16(hi, [], EncodeU16(lo) + rest);
      assert bs == EncodeU16(hi) + EncodeU16(lo) + rest;
      DecodeEncodeU16(lo, EncodeU16(hi), rest);
      assert bs[4..] == rest;
      assert 0x10000 + (hi - 0xD800) * 0x400 + (lo - 0xDC00) == v;
    }
  }

  /** Decoding what Encoding.Unicode encodes gives the string back. */
  lemma {:induction false} DecodeEncodeUtf16Le(s: string)
    ensures DecodeUtf16Le(EncodeUtf16Le(s)) == s
  {
    if s != "" {
      DecodeEncodeUtf16LeChar(s[0], EncodeUtf16Le(s[1..]));
      DecodeEncodeUtf16Le(s[1..]);
    }
  }

  /** String.TrimEnd('\0'). */
  function TrimEndNul(s: string): (r: string)
    ensures |r| <= |s| && r == s[..|r|]
    ensures r == "" || r[|r| - 1] != '\0'
    ensures forall i | |r| <= i < |s| :: s[i] == '\0'
  {
    if s == "" || s[|s| - 1] != '\0' then s else TrimEndNul(s[..|s| - 1])
  }

  /**
   * Char.IsWhiteSpace: the Unicode space, line and paragraph separators, the controls
   * U+0009 to U+000D, U+0085, and U+00A0.
   */
  predicate IsWhiteSpace(c: char)
  {
    || c == ' ' || ('\t' <= c <= '\r') || c == '\U{85}' || c == '\U{A0}' || c == '\U{1680}'
    || ('\U{2000}' <= c <= '\U{200A}') || c == '\U{2028}' || c == '\U{2029}' || c == '\U{202F}'
    || c == '\U{205F}' || c == '\U{3000}'
  }

  /** String.IsNullOrWhiteSpace for a non-null string: empty, or whitespace only. */
  predicate IsNullOrWhiteSpace(s: string)
  {
    forall i | 0 <= i < |s| :: IsWhiteSpace(s[i])
  }

  /** Ordinal String.StartsWith. */
  predicate StartsWith(s: string, prefix: string)
  {
    |prefix| <= |s| && s[..|prefix|] == prefix
  }

  /** Ordinal String.Contains. */
  predicate Contains(s: string, needle: string)
  {
    StartsWith(s, needle) || (s != "" && Contains(s[1..], needle))
  }

  /** The number of occurrences of c in s (Enumerable.Count with an equality test). */
  function CountChar(s: string, c: char): (n: nat)
    ensures n <= |s|
  {
    if s == "" then 0 else (if s[0] == c then 1 else 0) + CountChar(s[1..], c)
  }

  /** String.Length: the number of UTF-16 code units, two for a supplementary character. */
  function Utf16Length(s: string): (n: nat)
    ensures |s| <= n <= 2 * |s|
  {
    if s == "" then 0 else (if s[0] as int >= 0x10000 then 2 else 1) + Utf16Length(s[1..])
  }

  /** String.Join(sep, parts). */
  function Join(sep: string, parts: seq<string>): string
  {
    if |parts| == 0 then ""
    else if |parts| == 1 then parts[0]
    else parts[0] + sep + Join(sep, parts[1..])
  }
}
