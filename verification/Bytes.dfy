/** Fixed-width integers in native byte order, as `to_ne_bytes`, `from_ne_bytes` and unaligned
    header field accesses see them. */
module Bytes {

  type byte = b: int | 0 <= b < 256
  type i32 = v: int | -0x8000_0000 <= v < 0x8000_0000

  type u32 = v: int | 0 <= v < 0x1_0000_0000
  /** A descriptor number the kernel can hand out. */
  type Fd = v: int | 0 <= v < 0x8000_0000

  const U32_LIMIT: nat := 0x1_0000_0000
  const I32_MAX: nat := 0x7FFF_FFFF

  function Power256(width: nat): nat {
    if width == 0 then 1 else 256 * Power256(width - 1)
  }

  function LittleEndian(n: nat, width: nat): (bs: seq<byte>)
    ensures |bs| == width
  {
    if width == 0 then [] else [n % 256] + LittleEndian(n / 256, width - 1)
  }

  function LittleEndianValue(bs: seq<byte>): (n: nat)
    ensures n < Power256(|bs|)
  {
    if bs == [] then 0 else bs[0] + 256 * LittleEndianValue(bs[1..])
  }

  lemma {:induction false} LittleEndianRoundTrip(n: nat, width: nat)
    requires n < Power256(width)
    ensures LittleEndianValue(LittleEndian(n, width)) == n
  {
    if width > 0 {
      assert LittleEndian(n, width)[1..] == LittleEndian(n / 256, width - 1);
      LittleEndianRoundTrip(n / 256, width - 1);
    }
  }

  function Reversed<T>(s: seq<T>): (r: seq<T>)
    ensures |r| == |s|
    ensures forall i :: 0 <= i < |s| ==> r[i] == s[|s| - 1 - i]
  {
    seq(|s|, i requires 0 <= i < |s| => s[|s| - 1 - i])
  }

  function ToNative(bigEndian: bool, n: nat, width: nat): (bs: seq<byte>)
    ensures |bs| == width
  {
    if bigEndian then Reversed(LittleEndian(n, width)) else LittleEndian(n, width)
  }

  function FromNative(bigEndian: bool, bs: seq<byte>): (n: nat)
    ensures n < Power256(|bs|)
  {
    LittleEndianValue(if bigEndian then Reversed(bs) else bs)
  }

  /** Reading back what was written, in either byte order and at any width that fits. */
  lemma NativeRoundTrip(bigEndian: bool, n: nat, width: nat)
    requires n < Power256(width)
    ensures FromNative(bigEndian, ToNative(bigEndian, n, width)) == n
  {
    LittleEndianRoundTrip(n, width);
    assert Reversed(Reversed(LittleEndian(n, width))) == LittleEndian(n, width);
  }

  lemma {:induction false} LittleEndianOfValue(bs: seq<byte>)
    ensures LittleEndian(LittleEndianValue(bs), |bs|) == bs
  {
    if bs != [] {
      LittleEndianOfValue(bs[1..]);
      var n := LittleEndianValue(bs);
      assert n % 256 == bs[0] && n / 256 == LittleEndianValue(bs[1..]);
    }
  }

  /** Writing back what was read: no two byte strings of one width read as the same number. */
  lemma NativeOfValue(bigEndian: bool, bs: seq<byte>)
    ensures ToNative(bigEndian, FromNative(bigEndian, bs), |bs|) == bs
  {
    LittleEndianOfValue(if bigEndian then Reversed(bs) else bs);
    assert Reversed(Reversed(bs)) == bs;
  }

  lemma Power256Values()
    ensures Power256(4) == U32_LIMIT
    ensures Power256(8) == U32_LIMIT * U32_LIMIT
  {
    assert Power256(2) == 0x1_0000;
    assert Power256(4) == 0x1_0000_0000;
    assert Power256(6) == 0x1_0000_0000_0000;
  }

  /** Two's complement, `i32::to_ne_bytes`. */
  function EncodeI32(bigEndian: bool, v: i32): (bs: seq<byte>)
    ensures |bs| == 4
  {
    ToNative(bigEndian, if v < 0 then v + U32_LIMIT else v, 4)
  }

  /** `i32::from_ne_bytes`. */
  function DecodeI32(bigEndian: bool, bs: seq<byte>): i32
    requires |bs| == 4
  {
    Power256Values();
    var n := FromNative(bigEndian, bs);
    if n <= I32_MAX then n else n - U32_LIMIT
  }

  lemma I32RoundTrip(bigEndian: bool, v: i32)
    ensures DecodeI32(bigEndian, EncodeI32(bigEndian, v)) == v
  {
    Power256Values();
    NativeRoundTrip(bigEndian, if v < 0 then v + U32_LIMIT else v, 4);
  }

  lemma I32OfValue(bigEndian: bool, bs: seq<byte>)
    requires |bs| == 4
    ensures EncodeI32(bigEndian, DecodeI32(bigEndian, bs)) == bs
  {
    Power256Values();
    NativeOfValue(bigEndian, bs);
  }

  function Zeros(n: nat): (bs: seq<byte>)
    ensures |bs| == n
    ensures forall i :: 0 <= i < n ==> bs[i] == 0
  {
    seq(n, _ => 0)
  }
}
