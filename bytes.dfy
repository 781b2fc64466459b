/**
 * Bytes and the little-endian integer layouts the MusicDB format uses
 * (System.IO.BinaryReader reads every integer little-endian).
 */
module Bytes {
  import opened Wrappers

  type Byte = b: int | 0 <= b < 256

  const TWO_16: int := 0x1_0000
  const TWO_31: int := 0x8000_0000
  const TWO_32: int := 0x1_0000_0000
  const TWO_64: int := 0x1_0000_0000_0000_0000

  function Min(a: int, b: int): int { if a <= b then a else b }
  function Max(a: int, b: int): int { if a <= b then b else a }

  /** The unsigned 16-bit value stored little-endian at p. */
  function U16At(s: seq<Byte>, p: nat): (r: nat)
    requires p + 2 <= |s|
    ensures r < TWO_16
  {
    s[p] as int + 256 * (s[p + 1] as int)
  }

  /** The unsigned 32-bit value stored little-endian at p. */
  function U32At(s: seq<Byte>, p: nat): (r: nat)
    requires p + 4 <= |s|
    ensures r < TWO_32
  {
    U16At(s, p) + TWO_16 * U16At(s, p + 2)
  }

  /** The unsigned 64-bit value stored little-endian at p. */
  function U64At(s: seq<Byte>, p: nat): (r: nat)
    requires p + 8 <= |s|
    ensures r < TWO_64
  {
    U32At(s, p) + TWO_32 * U32At(s, p + 4)
  }

  /** C#'s unchecked `(int)` conversion of a 32-bit unsigned value: two's-complement wrap-around. */
  function ToInt32(x: nat): (r: int)
    requires x < TWO_32
    ensures -TWO_31 <= r < TWO_31
    ensures (r - x) % TWO_32 == 0
    ensures x < TWO_31 ==> r == x
  {
    if x < TWO_31 then x else x - TWO_32
  }

  /** The signed 32-bit value stored little-endian at p (BinaryReader.ReadInt32). */
  function I32At(s: seq<Byte>, p: nat): int
    requires p + 4 <= |s|
  {
    ToInt32(U32At(s, p))
  }

  /**
   * What BinaryReader.ReadBytes(n) returns with the stream at p: the bytes that exist,
   * possibly fewer than n, and nothing once p is at or past the end.
   */
  function Available(s: seq<Byte>, p: nat, n: nat): (r: seq<Byte>)
    ensures |r| <= n
    ensures p + n <= |s| ==> r == s[p..p + n]
    ensures |r| == (if p < |s| then Min(n, |s| - p) else 0)
  {
    if p < |s| then s[p..Min(p + n, |s|)] else []
  }

  /** The little-endian encoding of a 16-bit value. */
  function EncodeU16(x: nat): (r: seq<Byte>)
    requires x < TWO_16
    ensures |r| == 2
  {
    [x % 256, x / 256]
  }

  /** The little-endian encoding of a 32-bit value. */
  function EncodeU32(x: nat): (r: seq<Byte>)
    requires x < TWO_32
    ensures |r| == 4
  {
    EncodeU16(x % TWO_16) + EncodeU16(x / TWO_16)
  }

  /** The little-endian encoding of a 64-bit value. */
  function EncodeU64(x: nat): (r: seq<Byte>)
    requires x < TWO_64
    ensures |r| == 8
  {
    EncodeU32(x % TWO_32) + EncodeU32(x / TWO_32)
  }

  lemma {:induction false} DecodeEncodeU16(x: nat, pre: seq<Byte>, post: seq<Byte>)
    requires x < TWO_16
    ensures U16At(pre + EncodeU16(x) + post, |pre|) == x
  {
    var s := pre + EncodeU16(x) + post;
    assert s[|pre|] == x % 256 && s[|pre| + 1] == x / 256;
  }

  /** Reading back an encoded 32-bit value, wherever it sits in a buffer, gives the value. */
  lemma {:induction false} DecodeEncodeU32(x: nat, pre: seq<Byte>, post: seq<Byte>)
    requires x < TWO_32
    ensures U32At(pre + EncodeU32(x) + post, |pre|) == x
  {
    var lo, hi := x % TWO_16, x / TWO_16;
    var s := pre + EncodeU32(x) + post;
    assert s == pre + EncodeU16(lo) + (EncodeU16(hi) + post);
    assert s == (pre + EncodeU16(lo)) + EncodeU16(hi) + post;
    DecodeEncodeU16(lo, pre, EncodeU16(hi) + post);
    DecodeEncodeU16(hi, pre + EncodeU16(lo), post);
  }

  /** Reading back an encoded 64-bit value, wherever it sits in a buffer, gives the value. */
  lemma {:induction false} DecodeEncodeU64(x: nat, pre: seq<Byte>, post: seq<Byte>)
    requires x < TWO_64
    ensures U64At(pre + EncodeU64(x) + post, |pre|) == x
  {
    var lo, hi := x % TWO_32, x / TWO_32;
    var s := pre + EncodeU64(x) + post;
    assert s == pre + EncodeU32(lo) + (EncodeU32(hi) + post);
    assert s == (pre + EncodeU32(lo)) + EncodeU32(hi) + post;
    DecodeEncodeU32(lo, pre, EncodeU32(hi) + post);
    DecodeEncodeU32(hi, pre + EncodeU32(lo), post);
  }

  /** The value at p as an Option: None when the 4 bytes are not all inside the buffer. */
  function ReadU32(s: seq<Byte>, p: nat): (r: Option<nat>)
    ensures r.Some? <==> p + 4 <= |s|
  {
    if p + 4 <= |s| then Some(U32At(s, p)) else None
  }

  /** True when the four bytes at p are the ASCII tag `tag`. */
  predicate TagAt(s: seq<Byte>, p: nat, tag: seq<Byte>)
  {
    p + |tag| <= |s| && s[p..p + |tag|] == tag
  }
}
