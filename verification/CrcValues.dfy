/**
 The checksum is that of IEEE 802.3 and no other: its residue and its check value, computed on registers that are
 written as hexadecimal numbers.
 */
module CrcValues {
  import opened Bytes
  import opened Crc32

  // ----- Registers in hexadecimal -----

  /** Four bits, least significant first, and the sixteen hexadecimal digits. */
  datatype Digit = Digit(b0: bool, b1: bool, b2: bool, b3: bool)

  const X0: Digit := Digit(false, false, false, false)
  const X1: Digit := Digit(true, false, false, false)
  const X2: Digit := Digit(false, true, false, false)
  const X3: Digit := Digit(true, true, false, false)
  const X4: Digit := Digit(false, false, true, false)
  const X5: Digit := Digit(true, false, true, false)
  const X6: Digit := Digit(false, true, true, false)
  const X7: Digit := Digit(true, true, true, false)
  const X8: Digit := Digit(false, false, false, true)
  const X9: Digit := Digit(true, false, false, true)
  const XA: Digit := Digit(false, true, false, true)
  const XB: Digit := Digit(true, true, false, true)
  const XC: Digit := Digit(false, false, true, true)
  const XD: Digit := Digit(true, false, true, true)
  const XE: Digit := Digit(false, true, true, true)
  const XF: Digit := Digit(true, true, true, true)

  /** A register written as a hexadecimal number of eight digits, the most significant first. */
  datatype Hex = Hex(d7: Digit, d6: Digit, d5: Digit, d4: Digit, d3: Digit, d2: Digit, d1: Digit, d0: Digit)

  function DigitBits(d: Digit): (r: seq<bool>)
    ensures |r| == 4
  {
    [d.b0, d.b1, d.b2, d.b3]
  }

  function ByteOf(low: Digit, high: Digit): (r: seq<bool>)
    ensures |r| == 8
  {
    DigitBits(low) + DigitBits(high)
  }

  function HalfOf(a: Digit, b: Digit, c: Digit, d: Digit): (r: seq<bool>)
    ensures |r| == 16
  {
    ByteOf(a, b) + ByteOf(c, d)
  }

  function WordOf(w: Hex): Word {
    HalfOf(w.d0, w.d1, w.d2, w.d3) + HalfOf(w.d4, w.d5, w.d6, w.d7)
  }

  function Bit(b: bool): nat {
    if b then 1 else 0
  }

  function DigitNumber(d: Digit): nat {
    Bit(d.b0) + 2 * Bit(d.b1) + 4 * Bit(d.b2) + 8 * Bit(d.b3)
  }

  function ByteNumber(low: Digit, high: Digit): nat {
    DigitNumber(low) + 16 * DigitNumber(high)
  }

  function HexNumber(w: Hex): nat {
    ByteNumber(w.d0, w.d1) + 256 * ByteNumber(w.d2, w.d3) + 0x1_0000 * (ByteNumber(w.d4, w.d5) + 256 * ByteNumber(w.d6, w.d7))
  }

  lemma DigitIsNumber(d: Digit)
    ensures BitsToNat(DigitBits(d)) == DigitNumber(d)
  {
    var s := DigitBits(d);
    assert s[1..] == [d.b1, d.b2, d.b3] && s[1..][1..] == [d.b2, d.b3] && s[1..][1..][1..] == [d.b3] && [d.b3][1..] == [];
    assert BitsToNat([d.b3]) == Bit(d.b3);
    assert BitsToNat([d.b2, d.b3]) == Bit(d.b2) + 2 * Bit(d.b3);
    assert BitsToNat([d.b1, d.b2, d.b3]) == Bit(d.b1) + 2 * BitsToNat([d.b2, d.b3]);
  }

  lemma Doubled(p: nat, n: nat)
    ensures 2 * p * n == 2 * (p * n)
  {}

  lemma {:induction false} BitsToNatBoth(a: seq<bool>, b: seq<bool>)
    ensures BitsToNat(a + b) == BitsToNat(a) + Power2(|a|) * BitsToNat(b)
    decreases |a|
  {
    if a == [] {
      assert a + b == b;
    } else {
      assert (a + b)[1..] == a[1..] + b;
      BitsToNatBoth(a[1..], b);
      Doubled(Power2(|a| - 1), BitsToNat(b));
    }
  }

  lemma ByteIsNumber(low: Digit, high: Digit)
    ensures BitsToNat(ByteOf(low, high)) == ByteNumber(low, high)
  {
    hide DigitBits, BitsToNat;
    DigitIsNumber(low);
    DigitIsNumber(high);
    BitsToNatBoth(DigitBits(low), DigitBits(high));
    assert Power2(4) == 16;
  }

  lemma HalfIsNumber(a: Digit, b: Digit, c: Digit, d: Digit)
    ensures BitsToNat(HalfOf(a, b, c, d)) == ByteNumber(a, b) + 256 * ByteNumber(c, d)
  {
    hide ByteOf, BitsToNat, ByteNumber;
    ByteIsNumber(a, b);
    ByteIsNumber(c, d);
    BitsToNatBoth(ByteOf(a, b), ByteOf(c, d));
    Power2Values();
  }

  lemma HexIsNumber(w: Hex)
    ensures BitsToNat(WordOf(w)) == HexNumber(w) && NatBits(HexNumber(w), 32) == WordOf(w)
  {
    hide HalfOf, BitsToNat, ByteNumber;
    HalfIsNumber(w.d0, w.d1, w.d2, w.d3);
    HalfIsNumber(w.d4, w.d5, w.d6, w.d7);
    BitsToNatBoth(HalfOf(w.d0, w.d1, w.d2, w.d3), HalfOf(w.d4, w.d5, w.d6, w.d7));
    Power2Values();
    NatOfBits(WordOf(w));
  }

  function XorDigits(a: Digit, b: Digit): Digit {
    Digit(a.b0 != b.b0, a.b1 != b.b1, a.b2 != b.b2, a.b3 != b.b3)
  }

  function ShiftDigit(a: Digit, into: bool): Digit {
    Digit(a.b1, a.b2, a.b3, into)
  }

  function XorHex(a: Hex, b: Hex): Hex {
    Hex(XorDigits(a.d7, b.d7), XorDigits(a.d6, b.d6), XorDigits(a.d5, b.d5), XorDigits(a.d4, b.d4),
        XorDigits(a.d3, b.d3), XorDigits(a.d2, b.d2), XorDigits(a.d1, b.d1), XorDigits(a.d0, b.d0))
  }

  function ShiftHex(a: Hex): Hex {
    Hex(ShiftDigit(a.d7, false), ShiftDigit(a.d6, a.d7.b0), ShiftDigit(a.d5, a.d6.b0), ShiftDigit(a.d4, a.d5.b0),
        ShiftDigit(a.d3, a.d4.b0), ShiftDigit(a.d2, a.d3.b0), ShiftDigit(a.d1, a.d2.b0), ShiftDigit(a.d0, a.d1.b0))
  }

  /** One turn of the inner loop, with the constant 0xedb88320 of the source. */
  function TurnHex(w: Hex): Hex {
    if w.d0.b0 then XorHex(ShiftHex(w), Hex(XE, XD, XB, X8, X8, X3, X2, X0)) else ShiftHex(w)
  }

  /** Four turns. */
  function FourTurns(w: Hex): Hex {
    TurnHex(TurnHex(TurnHex(TurnHex(w))))
  }

  /** Bit by bit, for any length. */
  function XorBits(a: seq<bool>, b: seq<bool>): seq<bool>
    requires |a| == |b|
  {
    seq(|a|, i requires 0 <= i < |a| => a[i] != b[i])
  }

  lemma XorBoth(a: seq<bool>, c: seq<bool>, b: seq<bool>, d: seq<bool>)
    requires |a| == |b| && |c| == |d|
    ensures XorBits(a + c, b + d) == XorBits(a, b) + XorBits(c, d)
  {}

  lemma XorDigitBits(a: Digit, b: Digit)
    ensures XorBits(DigitBits(a), DigitBits(b)) == DigitBits(XorDigits(a, b))
  {}

  lemma XorBytes(a: Digit, c: Digit, b: Digit, d: Digit)
    ensures XorBits(ByteOf(a, c), ByteOf(b, d)) == ByteOf(XorDigits(a, b), XorDigits(c, d))
  {
    hide DigitBits, XorDigits, XorBits;
    XorBoth(DigitBits(a), DigitBits(c), DigitBits(b), DigitBits(d));
    XorDigitBits(a, b);
    XorDigitBits(c, d);
  }

  lemma XorHalves(a0: Digit, a1: Digit, a2: Digit, a3: Digit, b0: Digit, b1: Digit, b2: Digit, b3: Digit)
    ensures XorBits(HalfOf(a0, a1, a2, a3), HalfOf(b0, b1, b2, b3))
            == HalfOf(XorDigits(a0, b0), XorDigits(a1, b1), XorDigits(a2, b2), XorDigits(a3, b3))
  {
    hide ByteOf, XorDigits, XorBits;
    XorBoth(ByteOf(a0, a1), ByteOf(a2, a3), ByteOf(b0, b1), ByteOf(b2, b3));
    XorBytes(a0, a1, b0, b1);
    XorBytes(a2, a3, b2, b3);
  }

  lemma XorIsBits(a: Word, b: Word)
    ensures Xor(a, b) == XorBits(a, b)
  {}

  lemma XorWords(a: Hex, b: Hex)
    ensures Xor(WordOf(a), WordOf(b)) == WordOf(XorHex(a, b))
  {
    XorIsBits(WordOf(a), WordOf(b));
    hide HalfOf, XorDigits, XorBits, Xor;
    XorBoth(HalfOf(a.d0, a.d1, a.d2, a.d3), HalfOf(a.d4, a.d5, a.d6, a.d7),
            HalfOf(b.d0, b.d1, b.d2, b.d3), HalfOf(b.d4, b.d5, b.d6, b.d7));
    XorHalves(a.d0, a.d1, a.d2, a.d3, b.d0, b.d1, b.d2, b.d3);
    XorHalves(a.d4, a.d5, a.d6, a.d7, b.d4, b.d5, b.d6, b.d7);
  }

  /** Out at the front and in at the back. */
  function ShiftBits(a: seq<bool>, into: bool): seq<bool>
    requires a != []
  {
    a[1..] + [into]
  }

  lemma ShiftBoth(a: seq<bool>, b: seq<bool>, into: bool)
    requires a != [] && b != []
    ensures ShiftBits(a + b, into) == ShiftBits(a, b[0]) + ShiftBits(b, into)
  {}

  lemma ShiftDigitBits(d: Digit, into: bool)
    ensures ShiftBits(DigitBits(d), into) == DigitBits(ShiftDigit(d, into)) && DigitBits(d)[0] == d.b0
  {}

  lemma ShiftByte(a: Digit, b: Digit, into: bool)
    ensures ShiftBits(ByteOf(a, b), into) == ByteOf(ShiftDigit(a, b.b0), ShiftDigit(b, into)) && ByteOf(a, b)[0] == a.b0
  {
    hide DigitBits, ShiftDigit, ShiftBits;
    ShiftBoth(DigitBits(a), DigitBits(b), into);
    ShiftDigitBits(a, b.b0);
    ShiftDigitBits(b, into);
  }

  lemma ShiftHalf(a: Digit, b: Digit, c: Digit, d: Digit, into: bool)
    ensures ShiftBits(HalfOf(a, b, c, d), into)
            == HalfOf(ShiftDigit(a, b.b0), ShiftDigit(b, c.b0), ShiftDigit(c, d.b0), ShiftDigit(d, into))
    ensures HalfOf(a, b, c, d)[0] == a.b0
  {
    hide ByteOf, ShiftDigit, ShiftBits;
    ShiftBoth(ByteOf(a, b), ByteOf(c, d), into);
    ShiftByte(a, b, c.b0);
    ShiftByte(c, d, into);
  }

  lemma ShiftWord(w: Hex)
    ensures ShiftRight(WordOf(w)) == WordOf(ShiftHex(w)) && WordOf(w)[0] == w.d0.b0
  {
    assert ShiftRight(WordOf(w)) == ShiftBits(WordOf(w), false);
    hide HalfOf, ShiftDigit, ShiftBits, ShiftRight;
    ShiftBoth(HalfOf(w.d0, w.d1, w.d2, w.d3), HalfOf(w.d4, w.d5, w.d6, w.d7), false);
    ShiftHalf(w.d0, w.d1, w.d2, w.d3, w.d4.b0);
    ShiftHalf(w.d4, w.d5, w.d6, w.d7, false);
  }

  lemma IeeeWord()
    ensures Ieee() == WordOf(Hex(XE, XD, XB, X8, X8, X3, X2, X0))
  {
    HexIsNumber(Hex(XE, XD, XB, X8, X8, X3, X2, X0));
    hide WordOf, NatBits;
  }

  lemma TurnWord(w: Hex)
    ensures Turn(Ieee(), WordOf(w)) == WordOf(TurnHex(w))
  {
    hide WordOf, Ieee, Xor, ShiftRight, XorHex, ShiftHex;
    IeeeWord();
    ShiftWord(w);
    XorWords(ShiftHex(w), Hex(XE, XD, XB, X8, X8, X3, X2, X0));
  }

  lemma TurnsWord(w: Hex, k: nat)
    ensures Turns(Ieee(), WordOf(w), 4 + k) == Turns(Ieee(), WordOf(FourTurns(w)), k)
  {
    hide WordOf, Ieee, Turn, TurnHex, Turns;
    var w1 := TurnHex(w);
    var w2 := TurnHex(w1);
    var w3 := TurnHex(w2);
    TurnWord(w);
    TurnWord(w1);
    TurnWord(w2);
    TurnWord(w3);
    OneTurn(WordOf(w), 3 + k);
    OneTurn(WordOf(w1), 2 + k);
    OneTurn(WordOf(w2), 1 + k);
    OneTurn(WordOf(w3), k);
  }

  lemma OneTurn(w: Word, k: nat)
    ensures Turns(Ieee(), w, 1 + k) == Turns(Ieee(), Turn(Ieee(), w), k) && Turns(Ieee(), w, 0) == w
  {
    hide Turn, Ieee;
  }

  lemma OnesWord()
    ensures ALL_ONES == WordOf(Hex(XF, XF, XF, XF, XF, XF, XF, XF))
  {
    assert forall i :: 0 <= i < 4 ==> DigitBits(XF)[i];
    hide DigitBits;
    assert forall i :: 0 <= i < 8 ==> ByteOf(XF, XF)[i];
    hide ByteOf;
    assert forall i :: 0 <= i < 16 ==> HalfOf(XF, XF, XF, XF)[i];
    hide HalfOf;
  }

  // ----- Thirty-two turns from all ones -----

  lemma Ones1()
    ensures FourTurns(Hex(XF, XF, XF, XF, XF, XF, XF, XF)) == Hex(XB, X2, X4, X2, X0, XD, XE, X3)
  {}

  lemma Ones2()
    ensures FourTurns(Hex(XB, X2, X4, X2, X0, XD, XE, X3)) == Hex(X2, XD, XF, XD, X1, X0, X7, X2)
  {}

  lemma Ones3()
    ensures FourTurns(Hex(X2, XD, XF, XD, X1, X0, X7, X2)) == Hex(X3, X9, XB, X1, XF, X1, XC, XF)
  {}

  lemma Ones4()
    ensures FourTurns(Hex(X3, X9, XB, X1, XF, X1, XC, XF)) == Hex(XB, XE, X2, X6, XE, XD, X0, X0)
  {}

  lemma Ones5()
    ensures FourTurns(Hex(XB, XE, X2, X6, XE, XD, X0, X0)) == Hex(X0, XB, XE, X2, X6, XE, XD, X0)
  {}

  lemma Ones6()
    ensures FourTurns(Hex(X0, XB, XE, X2, X6, XE, XD, X0)) == Hex(X0, X0, XB, XE, X2, X6, XE, XD)
  {}

  lemma Ones7()
    ensures FourTurns(Hex(X0, X0, XB, XE, X2, X6, XE, XD)) == Hex(X8, X6, XD, X8, X3, X0, XB, XA)
  {}

  lemma Ones8()
    ensures FourTurns(Hex(X8, X6, XD, X8, X3, X0, XB, XA)) == Hex(XD, XE, XB, XB, X2, X0, XE, X3)
  {}

  lemma AllTurned()
    ensures Turns(Ieee(), ALL_ONES, 32) == WordOf(Hex(XD, XE, XB, XB, X2, X0, XE, X3))
  {
    hide FourTurns, WordOf, Turns, Ieee;
    OnesWord();
    Ones1();
    TurnsWord(Hex(XF, XF, XF, XF, XF, XF, XF, XF), 28);
    Ones2();
    TurnsWord(Hex(XB, X2, X4, X2, X0, XD, XE, X3), 24);
    Ones3();
    TurnsWord(Hex(X2, XD, XF, XD, X1, X0, X7, X2), 20);
    Ones4();
    TurnsWord(Hex(X3, X9, XB, X1, XF, X1, XC, XF), 16);
    Ones5();
    TurnsWord(Hex(XB, XE, X2, X6, XE, XD, X0, X0), 12);
    Ones6();
    TurnsWord(Hex(X0, XB, XE, X2, X6, XE, XD, X0), 8);
    Ones7();
    TurnsWord(Hex(X0, X0, XB, XE, X2, X6, XE, XD), 4);
    Ones8();
    TurnsWord(Hex(X8, X6, XD, X8, X3, X0, XB, XA), 0);
    OneTurn(WordOf(Hex(XD, XE, XB, XB, X2, X0, XE, X3)), 0);
  }

  /** The bytes that the file formats store, as the register sees them. */
  lemma {:induction false} StoredBits(n: nat, width: nat)
    ensures StreamBits(LittleEndian(n, width)) == NatBits(n, 8 * width)
    decreases width
  {
    if width > 0 {
      StoredBits(n / 256, width - 1);
      OneByte(n, 8 * (width - 1));
      assert LittleEndian(n, width)[1..] == LittleEndian(n / 256, width - 1);
    }
  }

  lemma {:induction false} NatSplit(n: nat, j: nat, k: nat, low: nat, high: nat)
    requires low < Power2(j) && n == low + Power2(j) * high
    ensures NatBits(n, j + k) == NatBits(low, j) + NatBits(high, k)
    decreases j
  {
    if j > 0 {
      var q := Power2(j - 1) * high;
      assert n == low + 2 * q;
      NatSplit(n / 2, j - 1, k, low / 2, high);
    } else {
      assert NatBits(low, 0) == [];
    }
  }

  lemma OneByte(n: nat, k: nat)
    ensures NatBits(n, 8 + k) == NatBits(n % 256, 8) + NatBits(n / 256, k)
  {
    Power2Values();
    NatSplit(n, 8, k, n % 256, n / 256);
  }

  lemma StoredChecksum(s: seq<byte>)
    ensures StreamBits(U32(Of(s))) == Checksum(Ieee(), s)
  {
    hide Checksum, Ieee;
    StoredBits(Of(s), 4);
    NatOfBits(Checksum(Ieee(), s));
  }

  lemma XorTwice(a: Word, b: Word)
    ensures Xor(a, Pad(Xor(a, b))) == b
  {}

  /** The inverted register as a number. */
  lemma Inverted(w: Hex)
    ensures BitsToNat(Xor(WordOf(w), ALL_ONES)) == HexNumber(XorHex(w, Hex(XF, XF, XF, XF, XF, XF, XF, XF)))
  {
    hide WordOf, HexNumber, XorHex, Xor;
    OnesWord();
    XorWords(w, Hex(XF, XF, XF, XF, XF, XF, XF, XF));
    HexIsNumber(XorHex(w, Hex(XF, XF, XF, XF, XF, XF, XF, XF)));
  }

  /** Any bytes followed by their checksum, as the files store it, have the residue of the IEEE 802.3 generator. */
  lemma Residue(s: seq<byte>)
    ensures Of(s + U32(Of(s))) == 0x2144_df1c
  {
    var g, r, c := Ieee(), Register(Ieee(), ALL_ONES, s), Checksum(Ieee(), s);
    hide Turns, Ieee, WordOf, Register, Feed, StreamBits, Pad, Xor, BitsToNat, LittleEndian;
    RegisterIsFeed(g, ALL_ONES, s);
    RegisterIsFeed(g, ALL_ONES, s + U32(Of(s)));
    StreamBitsConcat(s, U32(Of(s)));
    StoredChecksum(s);
    FeedConcat(g, ALL_ONES, StreamBits(s), c);
    TurnsAreFeed(g, r, c);
    XorTwice(r, ALL_ONES);
    AllTurned();
    Inverted(Hex(XD, XE, XB, XB, X2, X0, XE, X3));
  }

  // ----- The check value -----

  /** The text "123456789". */
  const CHECK: seq<byte> := [0x31, 0x32, 0x33, 0x34, 0x35, 0x36, 0x37, 0x38, 0x39]

  lemma ByteWordIs(b: byte, low: Digit, high: Digit)
    requires ByteNumber(low, high) == b as nat
    ensures ByteWord(b) == WordOf(Hex(X0, X0, X0, X0, X0, X0, high, low))
  {
    ByteBitsAre(b, low, high);
    ZeroByte();
    hide ByteBits, ByteOf, ByteNumber;
    var t, z := ByteOf(low, high), ByteOf(X0, X0);
    assert WordOf(Hex(X0, X0, X0, X0, X0, X0, high, low)) == t + z + (z + z);
    assert Pad(t) == t + z + (z + z);
  }

  lemma ByteBitsAre(b: byte, low: Digit, high: Digit)
    requires ByteNumber(low, high) == b as nat
    ensures ByteBits(b) == ByteOf(low, high)
  {
    hide ByteOf, NatBits, BitsToNat, ByteNumber;
    ByteIsNumber(low, high);
    NatOfBits(ByteOf(low, high));
  }

  lemma ZeroByte()
    ensures forall i :: 0 <= i < 8 ==> !ByteOf(X0, X0)[i]
  {
    assert forall i :: 0 <= i < 4 ==> !DigitBits(X0)[i];
    hide DigitBits;
  }

  /** One byte of the outer loop. */
  lemma TakesByte(w: Hex, b: byte, low: Digit, high: Digit, rest: seq<byte>)
    requires ByteNumber(low, high) == b as nat
    ensures var folded := XorHex(w, Hex(X0, X0, X0, X0, X0, X0, high, low));
            Register(Ieee(), WordOf(w), [b] + rest) == Register(Ieee(), WordOf(FourTurns(FourTurns(folded))), rest)
  {
    hide WordOf, Ieee, FourTurns, XorHex, Turns, ByteWord, Xor, ByteNumber;
    var mask := Hex(X0, X0, X0, X0, X0, X0, high, low);
    var folded := XorHex(w, mask);
    ByteWordIs(b, low, high);
    XorWords(w, mask);
    assert ([b] + rest)[1..] == rest;
    TurnsWord(folded, 4);
    TurnsWord(FourTurns(folded), 0);
    OneTurn(WordOf(FourTurns(FourTurns(folded))), 0);
  }

  lemma Check1()
    ensures Register(Ieee(), WordOf(Hex(XF, XF, XF, XF, XF, XF, XF, XF)), CHECK[0..])
            == Register(Ieee(), WordOf(Hex(X7, XC, X2, X3, X1, X0, X4, X8)), CHECK[1..])
  {
    assert XorHex(Hex(XF, XF, XF, XF, XF, XF, XF, XF), Hex(X0, X0, X0, X0, X0, X0, X3, X1)) == Hex(XF, XF, XF, XF, XF, XF, XC, XE);
    assert FourTurns(Hex(XF, XF, XF, XF, XF, XF, XC, XE)) == Hex(XA, XF, XF, X5, X1, XD, X8, X4);
    assert FourTurns(Hex(XA, XF, XF, X5, X1, XD, X8, X4)) == Hex(X7, XC, X2, X3, X1, X0, X4, X8);
    assert ByteNumber(X1, X3) == 0x31;
    hide Register, WordOf, Ieee, FourTurns, XorHex, ByteNumber;
    assert CHECK[0..] == [0x31] + CHECK[1..];
    TakesByte(Hex(XF, XF, XF, XF, XF, XF, XF, XF), 0x31, X1, X3, CHECK[1..]);
  }

  lemma Check2()
    ensures Register(Ieee(), WordOf(Hex(X7, XC, X2, X3, X1, X0, X4, X8)), CHECK[1..])
            == Register(Ieee(), WordOf(Hex(XB, X0, XA, XC, XB, XB, X3, X2)), CHECK[2..])
  {
    assert XorHex(Hex(X7, XC, X2, X3, X1, X0, X4, X8), Hex(X0, X0, X0, X0, X0, X0, X3, X2)) == Hex(X7, XC, X2, X3, X1, X0, X7, XA);
    assert FourTurns(Hex(X7, XC, X2, X3, X1, X0, X7, XA)) == Hex(XD, X1, X1, X4, X9, X2, XE, XF);
    assert FourTurns(Hex(XD, X1, X1, X4, X9, X2, XE, XF)) == Hex(XB, X0, XA, XC, XB, XB, X3, X2);
    assert ByteNumber(X2, X3) == 0x32;
    hide Register, WordOf, Ieee, FourTurns, XorHex, ByteNumber;
    assert CHECK[1..] == [0x32] + CHECK[2..];
    TakesByte(Hex(X7, XC, X2, X3, X1, X0, X4, X8), 0x32, X2, X3, CHECK[2..]);
  }

  lemma Check3()
    ensures Register(Ieee(), WordOf(Hex(XB, X0, XA, XC, XB, XB, X3, X2)), CHECK[2..])
            == Register(Ieee(), WordOf(Hex(X7, X7, XB, X7, X9, XC, X2, XD)), CHECK[3..])
  {
    assert XorHex(Hex(XB, X0, XA, XC, XB, XB, X3, X2), Hex(X0, X0, X0, X0, X0, X0, X3, X3)) == Hex(XB, X0, XA, XC, XB, XB, X0, X1);
    assert FourTurns(Hex(XB, X0, XA, XC, XB, XB, X0, X1)) == Hex(X1, X6, XB, XD, XD, XB, XD, X4);
    assert FourTurns(Hex(X1, X6, XB, XD, XD, XB, XD, X4)) == Hex(X7, X7, XB, X7, X9, XC, X2, XD);
    assert ByteNumber(X3, X3) == 0x33;
    hide Register, WordOf, Ieee, FourTurns, XorHex, ByteNumber;
    assert CHECK[2..] == [0x33] + CHECK[3..];
    TakesByte(Hex(XB, X0, XA, XC, XB, XB, X3, X2), 0x33, X3, X3, CHECK[3..]);
  }

  lemma Check4()
    ensures Register(Ieee(), WordOf(Hex(X7, X7, XB, X7, X9, XC, X2, XD)), CHECK[3..])
            == Register(Ieee(), WordOf(Hex(X6, X4, X1, XC, X1, XF, X5, XC)), CHECK[4..])
  {
    assert XorHex(Hex(X7, X7, XB, X7, X9, XC, X2, XD), Hex(X0, X0, X0, X0, X0, X0, X3, X4)) == Hex(X7, X7, XB, X7, X9, XC, X1, X9);
    assert FourTurns(Hex(X7, X7, XB, X7, X9, XC, X1, X9)) == Hex(XF, X7, X7, X4, XE, XA, X8, X5);
    assert FourTurns(Hex(XF, X7, X7, X4, XE, XA, X8, X5)) == Hex(X6, X4, X1, XC, X1, XF, X5, XC);
    assert ByteNumber(X4, X3) == 0x34;
    hide Register, WordOf, Ieee, FourTurns, XorHex, ByteNumber;
    assert CHECK[3..] == [0x34] + CHECK[4..];
    TakesByte(Hex(X7, X7, XB, X7, X9, XC, X2, XD), 0x34, X4, X3, CHECK[4..]);
  }

  lemma Check5()
    ensures Register(Ieee(), WordOf(Hex(X6, X4, X1, XC, X1, XF, X5, XC)), CHECK[4..])
            == Register(Ieee(), WordOf(Hex(X3, X4, X0, XA, XC, X5, XE, X3)), CHECK[5..])
  {
    assert XorHex(Hex(X6, X4, X1, XC, X1, XF, X5, XC), Hex(X0, X0, X0, X0, X0, X0, X3, X5)) == Hex(X6, X4, X1, XC, X1, XF, X6, X9);
    assert FourTurns(Hex(X6, X4, X1, XC, X1, XF, X6, X9)) == Hex(XF, X6, X4, XE, X5, X2, XB, X2);
    assert FourTurns(Hex(XF, X6, X4, XE, X5, X2, XB, X2)) == Hex(X3, X4, X0, XA, XC, X5, XE, X3);
    assert ByteNumber(X5, X3) == 0x35;
    hide Register, WordOf, Ieee, FourTurns, XorHex, ByteNumber;
    assert CHECK[4..] == [0x35] + CHECK[5..];
    TakesByte(Hex(X6, X4, X1, XC, X1, XF, X5, XC), 0x35, X5, X3, CHECK[5..]);
  }

  lemma Check6()
    ensures Register(Ieee(), WordOf(Hex(X3, X4, X0, XA, XC, X5, XE, X3)), CHECK[5..])
            == Register(Ieee(), WordOf(Hex(XF, X6, X8, XD, X2, XC, X9, XE)), CHECK[6..])
  {
    assert XorHex(Hex(X3, X4, X0, XA, XC, X5, XE, X3), Hex(X0, X0, X0, X0, X0, X0, X3, X6)) == Hex(X3, X4, X0, XA, XC, X5, XD, X5);
    assert FourTurns(Hex(X3, X4, X0, XA, XC, X5, XD, X5)) == Hex(X6, X8, X2, XB, XF, XD, XA, X9);
    assert FourTurns(Hex(X6, X8, X2, XB, XF, XD, XA, X9)) == Hex(XF, X6, X8, XD, X2, XC, X9, XE);
    assert ByteNumber(X6, X3) == 0x36;
    hide Register, WordOf, Ieee, FourTurns, XorHex, ByteNumber;
    assert CHECK[5..] == [0x36] + CHECK[6..];
    TakesByte(Hex(X3, X4, X0, XA, XC, X5, XE, X3), 0x36, X6, X3, CHECK[6..]);
  }

  lemma Check7()
    ensures Register(Ieee(), WordOf(Hex(XF, X6, X8, XD, X2, XC, X9, XE)), CHECK[6..])
            == Register(Ieee(), WordOf(Hex(XA, XF, XF, XC, X9, X6, X6, X0)), CHECK[7..])
  {
    assert XorHex(Hex(XF, X6, X8, XD, X2, XC, X9, XE), Hex(X0, X0, X0, X0, X0, X0, X3, X7)) == Hex(XF, X6, X8, XD, X2, XC, XA, X9);
    assert FourTurns(Hex(XF, X6, X8, XD, X2, XC, XA, X9)) == Hex(XF, XF, X6, X7, X4, X1, X8, XE);
    assert FourTurns(Hex(XF, XF, X6, X7, X4, X1, X8, XE)) == Hex(XA, XF, XF, XC, X9, X6, X6, X0);
    assert ByteNumber(X7, X3) == 0x37;
    hide Register, WordOf, Ieee, FourTurns, XorHex, ByteNumber;
    assert CHECK[6..] == [0x37] + CHECK[7..];
    TakesByte(Hex(XF, X6, X8, XD, X2, XC, X9, XE), 0x37, X7, X3, CHECK[7..]);
  }

  lemma Check8()
    ensures Register(Ieee(), WordOf(Hex(XA, XF, XF, XC, X9, X6, X6, X0)), CHECK[7..])
            == Register(Ieee(), WordOf(Hex(X6, X5, X1, XF, X2, X5, X5, X0)), CHECK[8..])
  {
    assert XorHex(Hex(XA, XF, XF, XC, X9, X6, X6, X0), Hex(X0, X0, X0, X0, X0, X0, X3, X8)) == Hex(XA, XF, XF, XC, X9, X6, X5, X8);
    assert FourTurns(Hex(XA, XF, XF, XC, X9, X6, X5, X8)) == Hex(XE, X7, X4, X7, X4, XA, X4, X5);
    assert FourTurns(Hex(XE, X7, X4, X7, X4, XA, X4, X5)) == Hex(X6, X5, X1, XF, X2, X5, X5, X0);
    assert ByteNumber(X8, X3) == 0x38;
    hide Register, WordOf, Ieee, FourTurns, XorHex, ByteNumber;
    assert CHECK[7..] == [0x38] + CHECK[8..];
    TakesByte(Hex(XA, XF, XF, XC, X9, X6, X6, X0), 0x38, X8, X3, CHECK[8..]);
  }

  lemma Check9()
    ensures Register(Ieee(), WordOf(Hex(X6, X5, X1, XF, X2, X5, X5, X0)), CHECK[8..])
            == Register(Ieee(), WordOf(Hex(X3, X4, X0, XB, XC, X6, XD, X9)), CHECK[9..])
  {
    assert XorHex(Hex(X6, X5, X1, XF, X2, X5, X5, X0), Hex(X0, X0, X0, X0, X0, X0, X3, X9)) == Hex(X6, X5, X1, XF, X2, X5, X6, X9);
    assert FourTurns(Hex(X6, X5, X1, XF, X2, X5, X6, X9)) == Hex(XF, X6, X5, XE, X6, X1, X1, X2);
    assert FourTurns(Hex(XF, X6, X5, XE, X6, X1, X1, X2)) == Hex(X3, X4, X0, XB, XC, X6, XD, X9);
    assert ByteNumber(X9, X3) == 0x39;
    hide Register, WordOf, Ieee, FourTurns, XorHex, ByteNumber;
    assert CHECK[8..] == [0x39] + CHECK[9..];
    TakesByte(Hex(X6, X5, X1, XF, X2, X5, X5, X0), 0x39, X9, X3, CHECK[9..]);
  }

  /** The check value by which the algorithm is known. */
  lemma CheckValue()
    ensures Of(CHECK) == 0xcbf4_3926
  {
    hide WordOf, Ieee, Register, Xor, BitsToNat;
    OnesWord();
    assert CHECK[0..] == CHECK && CHECK[9..] == [];
    Check1();
    Check2();
    Check3();
    Check4();
    Check5();
    Check6();
    Check7();
    Check8();
    Check9();
    NoBytes(WordOf(Hex(X3, X4, X0, XB, XC, X6, XD, X9)));
    Inverted(Hex(X3, X4, X0, XB, XC, X6, XD, X9));
  }

  lemma NoBytes(w: Word)
    ensures Register(Ieee(), w, []) == w
  {}
}
