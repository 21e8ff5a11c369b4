/**
  Little-endian integers as construct's Int32sl / Int64ul and numpy's '<i4'
  read and write them: unsigned values as base-256 digits, least significant
  byte first, and signed 32-bit values in two's complement.
*/
module LittleEndian {

  type Byte = b: int | 0 <= b < 256

  function Pow256(n: nat): (p: nat)
    ensures p >= 1
  {
    if n == 0 then 1 else 256 * Pow256(n - 1)
  }

  lemma Pow256Values()
    ensures Pow256(4) == 0x1_0000_0000
    ensures Pow256(8) == 0x1_0000_0000_0000_0000
  {
    assert Pow256(2) == 0x1_0000;
    assert Pow256(4) == 256 * 256 * Pow256(2);
    assert Pow256(6) == 256 * 256 * Pow256(4);
    assert Pow256(8) == 256 * 256 * Pow256(6);
  }

  /** The unsigned value of a little-endian byte string. */
  function Unsigned(bs: seq<Byte>): (v: nat)
    ensures v < Pow256(|bs|)
  {
    if bs == [] then 0 else bs[0] + 256 * Unsigned(bs[1..])
  }

  /** The n-byte little-endian encoding of v. */
  function UnsignedBytes(v: nat, n: nat): (bs: seq<Byte>)
    requires v < Pow256(n)
    ensures |bs| == n
  {
    if n == 0 then [] else [v % 256] + UnsignedBytes(v / 256, n - 1)
  }

  lemma {:induction false} UnsignedRoundTrip(v: nat, n: nat)
    requires v < Pow256(n)
    ensures Unsigned(UnsignedBytes(v, n)) == v
  {
    if n > 0 {
      var bs := UnsignedBytes(v, n);
      assert bs[1..] == UnsignedBytes(v / 256, n - 1);
      UnsignedRoundTrip(v / 256, n - 1);
    }
  }

  lemma {:induction false} BytesRoundTrip(bs: seq<Byte>)
    ensures UnsignedBytes(Unsigned(bs), |bs|) == bs
  {
    if bs != [] {
      var v := Unsigned(bs);
      assert v % 256 == bs[0] && v / 256 == Unsigned(bs[1..]);
      BytesRoundTrip(bs[1..]);
    }
  }

  /** Int32sl / '<i4': four bytes read as a two's-complement 32-bit integer. */
  function Int32(bs: seq<Byte>): (v: int)
    requires |bs| == 4
    ensures -0x8000_0000 <= v < 0x8000_0000
  {
    Pow256Values();
    var u := Unsigned(bs);
    if u < 0x8000_0000 then u else u - 0x1_0000_0000
  }

  function Int32Bytes(v: int): (bs: seq<Byte>)
    requires -0x8000_0000 <= v < 0x8000_0000
    ensures |bs| == 4
  {
    Pow256Values();
    UnsignedBytes(if v < 0 then v + 0x1_0000_0000 else v, 4)
  }

  lemma Int32RoundTrip(v: int)
    requires -0x8000_0000 <= v < 0x8000_0000
    ensures Int32(Int32Bytes(v)) == v
  {
    Pow256Values();
    UnsignedRoundTrip(if v < 0 then v + 0x1_0000_0000 else v, 4);
  }

  lemma Int32BytesRoundTrip(bs: seq<Byte>)
    requires |bs| == 4
    ensures Int32Bytes(Int32(bs)) == bs
  {
    Pow256Values();
    BytesRoundTrip(bs);
  }

  /** Int64ul: eight bytes read as an unsigned 64-bit integer. */
  function UInt64(bs: seq<Byte>): (v: nat)
    requires |bs| == 8
    ensures v < 0x1_0000_0000_0000_0000
  {
    Pow256Values();
    Unsigned(bs)
  }

  function UInt64Bytes(v: nat): (bs: seq<Byte>)
    requires v < 0x1_0000_0000_0000_0000
    ensures |bs| == 8
  {
    Pow256Values();
    UnsignedBytes(v, 8)
  }

  lemma UInt64RoundTrip(v: nat)
    requires v < 0x1_0000_0000_0000_0000
    ensures UInt64(UInt64Bytes(v)) == v
  {
    Pow256Values();
    UnsignedRoundTrip(v, 8);
  }

  lemma UInt64BytesRoundTrip(bs: seq<Byte>)
    requires |bs| == 8
    ensures UInt64Bytes(UInt64(bs)) == bs
  {
    Pow256Values();
    BytesRoundTrip(bs);
  }
}
