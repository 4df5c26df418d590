/** Byte strings read as big-endian integers, as Python's
    `int.from_bytes(b, byteorder='big', signed=...)`, and the matching
    n-byte encodings (`int.to_bytes`). */
module Bytes {

  type Byte = x: int | 0 <= x < 256

  /** 256 to the power n. */
  function Pow256(n: nat): (p: nat)
    ensures p >= 1
  {
    if n == 0 then 1 else 256 * Pow256(n - 1)
  }

  /** 2 to the power 8n - 1: half the number of n-byte values, the bound of
      the n-byte two's-complement range. */
  function Half(n: nat): (h: int)
    requires n >= 1
    ensures h >= 1 && 2 * h == Pow256(n)
  {
    128 * Pow256(n - 1)
  }

  /** The value of `bs` read as an unsigned big-endian integer. */
  function Unsigned(bs: seq<Byte>): (u: nat)
    ensures u < Pow256(|bs|)
    decreases |bs|
  {
    if bs == [] then 0 else Unsigned(bs[..|bs| - 1]) * 256 + bs[|bs| - 1]
  }

  /** The value of `bs` read as a big-endian two's-complement integer: the
      unsigned value, less 2^(8n) when the top bit of the first byte is set. */
  function Signed(bs: seq<Byte>): (v: int)
    ensures |bs| >= 1 ==> -Half(|bs|) <= v < Half(|bs|)
  {
    if bs == [] then 0
    else
      SignBit(bs);
      if bs[0] >= 128 then Unsigned(bs) - Pow256(|bs|) else Unsigned(bs)
  }

  /** The top bit of the first byte is set exactly when the unsigned value is
      at least 2^(8n - 1). */
  lemma {:induction false} SignBit(bs: seq<Byte>)
    requires |bs| >= 1
    ensures bs[0] >= 128 <==> Unsigned(bs) >= Half(|bs|)
    decreases |bs|
  {
    if |bs| > 1 {
      var init := bs[..|bs| - 1];
      SignBit(init);
      assert init[0] == bs[0];
      assert Half(|bs|) == 256 * Half(|init|);
    }
  }

  /** The n-byte unsigned big-endian encoding of `v`. */
  function ToUnsigned(v: nat, n: nat): (bs: seq<Byte>)
    requires v < Pow256(n)
    ensures |bs| == n && Unsigned(bs) == v
    decreases n
  {
    if n == 0 then []
    else
      var init := ToUnsigned(v / 256, n - 1);
      assert (init + [v % 256])[..n - 1] == init;
      init + [v % 256]
  }

  /** The n-byte two's-complement big-endian encoding of `v`. */
  function ToSigned(v: int, n: nat): (bs: seq<Byte>)
    requires n >= 1 && -Half(n) <= v < Half(n)
    ensures |bs| == n && Signed(bs) == v
  {
    var bs := ToUnsigned(if v < 0 then v + Pow256(n) else v, n);
    SignBit(bs);
    bs
  }

  /** Encoding the unsigned value of a byte string gives back the bytes. */
  lemma {:induction false} UnsignedRoundTrip(bs: seq<Byte>)
    ensures ToUnsigned(Unsigned(bs), |bs|) == bs
    decreases |bs|
  {
    if bs != [] {
      var init := bs[..|bs| - 1];
      UnsignedRoundTrip(init);
      assert Unsigned(bs) / 256 == Unsigned(init);
      assert Unsigned(bs) % 256 == bs[|bs| - 1];
    }
  }

  /** Encoding the signed value of a non-empty byte string gives back the bytes. */
  lemma SignedRoundTrip(bs: seq<Byte>)
    requires |bs| >= 1
    ensures ToSigned(Signed(bs), |bs|) == bs
  {
    UnsignedRoundTrip(bs);
  }
}
