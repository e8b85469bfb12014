/** Bytes and the fixed-width integer encodings shared by the file formats. */
module Bytes {

  newtype byte = x: int | 0 <= x < 256

  const U16_LIMIT: nat := 0x1_0000
  const U32_LIMIT: nat := 0x1_0000_0000
  const U64_LIMIT: nat := 0x1_0000_0000_0000_0000

  /** Little-endian encoding of `n` on `width` bytes: what memcpy of an unsigned integer stores. */
  function LittleEndian(n: nat, width: nat): (r: seq<byte>)
    ensures |r| == width
  {
    if width == 0 then [] else [(n % 256) as byte] + LittleEndian(n / 256, width - 1)
  }

  /** The unsigned integer a little-endian byte string denotes. */
  function FromLittleEndian(s: seq<byte>): nat {
    if s == [] then 0 else s[0] as nat + 256 * FromLittleEndian(s[1..])
  }

  /** 256 to the power `width`. */
  function Radix(width: nat): (r: nat)
    ensures r >= 1
  {
    if width == 0 then 1 else 256 * Radix(width - 1)
  }

  lemma RadixValues()
    ensures Radix(2) == U16_LIMIT
    ensures Radix(4) == U32_LIMIT
    ensures Radix(8) == U64_LIMIT
  {
    assert Radix(1) == 256;
    assert Radix(3) == 0x1_00_0000;
    assert Radix(5) == 0x1_0000_0000 * 256;
    assert Radix(6) == 0x1_0000_0000 * 256 * 256;
  }

  lemma {:induction false} LittleEndianRoundTrip(n: nat, width: nat)
    requires n < Radix(width)
    ensures FromLittleEndian(LittleEndian(n, width)) == n
  {
    if width > 0 {
      LittleEndianRoundTrip(n / 256, width - 1);
      assert LittleEndian(n, width)[1..] == LittleEndian(n / 256, width - 1);
    }
  }

  lemma {:induction false} FromLittleEndianRoundTrip(s: seq<byte>)
    ensures FromLittleEndian(s) < Radix(|s|)
    ensures LittleEndian(FromLittleEndian(s), |s|) == s
  {
    if s != [] {
      FromLittleEndianRoundTrip(s[1..]);
      assert s == [s[0]] + s[1..];
    }
  }

  function U32(n: nat): (r: seq<byte>)
    ensures |r| == 4
  {
    LittleEndian(n, 4)
  }

  function U64(n: nat): (r: seq<byte>)
    ensures |r| == 8
  {
    LittleEndian(n, 8)
  }

  lemma U32RoundTrip(n: nat)
    requires n < U32_LIMIT
    ensures FromLittleEndian(U32(n)) == n
  {
    RadixValues();
    LittleEndianRoundTrip(n, 4);
  }
}
