/**
 The bitwise CRC-32 of section 3.2.9 of IEEE 802.3, and what it detects.
 A 32-bit register is its sequence of bits, least significant first, and a byte
 enters the register least significant bit first.
 */
module Crc32 {
  import opened Bytes

  type Word = w: seq<bool> | |w| == 32 witness Filled(false)

  /** A feedback word whose top bit is set, as that of every CRC of degree 32. */
  type Generator = w: Word | w[31] witness Filled(true)

  function Filled(bit: bool): (r: seq<bool>)
    ensures |r| == 32
    ensures forall i :: 0 <= i < 32 ==> r[i] == bit
  {
    seq(32, i => bit)
  }

  // ----- Bits -----

  /** The `k` low bits of `n`, least significant first. */
  function NatBits(n: nat, k: nat): (r: seq<bool>)
    ensures |r| == k
  {
    if k == 0 then [] else [n % 2 == 1] + NatBits(n / 2, k - 1)
  }

  function BitsToNat(bits: seq<bool>): nat {
    if bits == [] then 0 else (if bits[0] then 1 else 0) + 2 * BitsToNat(bits[1..])
  }

  function Power2(k: nat): nat {
    if k == 0 then 1 else 2 * Power2(k - 1)
  }

  lemma {:induction false} BitsOfNat(n: nat, k: nat)
    requires n < Power2(k)
    ensures BitsToNat(NatBits(n, k)) == n
  {
    if k > 0 {
      BitsOfNat(n / 2, k - 1);
      assert NatBits(n, k)[1..] == NatBits(n / 2, k - 1);
    }
  }

  lemma {:induction false} NatOfBits(bits: seq<bool>)
    ensures BitsToNat(bits) < Power2(|bits|)
    ensures NatBits(BitsToNat(bits), |bits|) == bits
  {
    if bits != [] {
      NatOfBits(bits[1..]);
      assert bits == [bits[0]] + bits[1..];
    }
  }

  function ByteBits(b: byte): (r: seq<bool>)
    ensures |r| == 8
  {
    NatBits(b as nat, 8)
  }

  /** The bits of a byte string in the order the register sees them. */
  function StreamBits(s: seq<byte>): (r: seq<bool>)
    ensures |r| == 8 * |s|
  {
    if s == [] then [] else ByteBits(s[0]) + StreamBits(s[1..])
  }

  lemma ByteBitsInjective(a: byte, b: byte)
    requires ByteBits(a) == ByteBits(b)
    ensures a == b
  {
    assert Power2(8) == 256;
    BitsOfNat(a as nat, 8);
    BitsOfNat(b as nat, 8);
  }

  lemma {:induction false} StreamBitsInjective(a: seq<byte>, b: seq<byte>)
    requires |a| == |b|
    requires StreamBits(a) == StreamBits(b)
    ensures a == b
  {
    if a != [] {
      assert ByteBits(a[0]) == StreamBits(a)[..8] == StreamBits(b)[..8] == ByteBits(b[0]);
      ByteBitsInjective(a[0], b[0]);
      assert StreamBits(a[1..]) == StreamBits(a)[8..] == StreamBits(b)[8..] == StreamBits(b[1..]);
      StreamBitsInjective(a[1..], b[1..]);
      assert a == [a[0]] + a[1..] && b == [b[0]] + b[1..];
    }
  }

  // ----- The register -----

  const ALL_ONES: Word := Filled(true)

  /** A 32-bit constant with its top bit set, as a feedback word. */
  function Reflected(n: nat): Generator
    requires 0x8000_0000 <= n < U32_LIMIT
  {
    Power2Values();
    TopBit(n, |ALL_ONES|);
    NatBits(n, |ALL_ONES|)
  }

  /** The generator of IEEE 802.3, reflected. */
  function Ieee(): Generator {
    Reflected(0xedb88320)
  }

  lemma Power2Values()
    ensures Power2(8) == 0x100 && Power2(16) == 0x1_0000 && Power2(31) == 0x8000_0000 && Power2(32) == U32_LIMIT
  {
    assert Power2(8) == 0x100;
    assert Power2(12) == 0x1000;
    assert Power2(16) == 0x1_0000;
    assert Power2(20) == 0x10_0000;
    assert Power2(24) == 0x100_0000;
    assert Power2(28) == 0x1000_0000;
    assert Power2(31) == 0x8000_0000;
  }

  lemma {:induction false} TopBit(n: nat, k: nat)
    requires 0 < k && Power2(k - 1) <= n < Power2(k)
    ensures NatBits(n, k)[k - 1]
  {
    if k > 1 {
      TopBit(n / 2, k - 1);
      assert NatBits(n, k)[k - 1] == NatBits(n / 2, k - 1)[k - 2];
    }
  }

  function Xor(a: Word, b: Word): Word {
    seq(32, i requires 0 <= i < 32 => a[i] != b[i])
  }

  function ShiftRight(a: Word): Word {
    a[1..] + [false]
  }

  /** A bit as a word. */
  function BitWord(bit: bool): Word {
    seq(32, i => i == 0 && bit)
  }

  /** The bits `t`, padded to a word. */
  function Pad(t: seq<bool>): Word
    requires |t| <= 32
  {
    seq(32, i requires 0 <= i => i < |t| && t[i])
  }

  function ByteWord(b: byte): Word {
    Pad(ByteBits(b))
  }

  /** One turn of the inner loop. */
  function Turn(g: Generator, crc: Word): Word {
    if crc[0] then Xor(ShiftRight(crc), g) else ShiftRight(crc)
  }

  function Turns(g: Generator, crc: Word, k: nat): Word
    decreases k
  {
    if k == 0 then crc else Turns(g, Turn(g, crc), k - 1)
  }

  /** A byte is folded in and the register makes one turn per bit. */
  function TakeByte(g: Generator, crc: Word, b: byte): Word {
    Turns(g, Xor(crc, ByteWord(b)), |ByteBits(b)|)
  }

  /** The register after the bytes of `s`, starting from `crc`. */
  function Register(g: Generator, crc: Word, s: seq<byte>): Word
    decreases |s|
  {
    if s == [] then crc else Register(g, TakeByte(g, crc, s[0]), s[1..])
  }

  function Checksum(g: Generator, s: seq<byte>): Word {
    Xor(Register(g, ALL_ONES, s), ALL_ONES)
  }

  /** The checksum as the unsigned integer the file formats store. */
  function Of(s: seq<byte>): (r: nat)
    ensures r < U32_LIMIT
  {
    NatOfBits(Checksum(Ieee(), s));
    Power2Values();
    BitsToNat(Checksum(Ieee(), s))
  }

  /** The inner loop of the source. */
  method RunTurns(g: Generator, start: Word, k: nat) returns (crc: Word)
    ensures crc == Turns(g, start, k)
  {
    crc := start;
    for bit := 0 to k
      invariant Turns(g, crc, k - bit) == Turns(g, start, k)
    {
      crc := if crc[0] then Xor(ShiftRight(crc), g) else ShiftRight(crc);
    }
  }

  /** The outer loop of the source, for any generator. */
  method ComputeWith(g: Generator, s: seq<byte>) returns (r: Word)
    ensures r == Checksum(g, s)
  {
    var crc: Word := ALL_ONES;
    for i := 0 to |s|
      invariant Register(g, crc, s[i..]) == Register(g, ALL_ONES, s)
    {
      assert s[i..][0] == s[i] && s[i..][1..] == s[i + 1..];
      crc := RunTurns(g, Xor(crc, ByteWord(s[i])), 8);
    }
    assert s[|s|..] == [];
    r := Xor(crc, ALL_ONES);
  }

  method Compute(s: seq<byte>) returns (r: nat)
    ensures r == Of(s)
  {
    var word := ComputeWith(Ieee(), s);
    r := BitsToNat(word);
  }

  // ----- The register fed one bit at a time -----

  function Feed(g: Generator, crc: Word, bits: seq<bool>): Word
    decreases |bits|
  {
    if bits == [] then crc else Feed(g, Turn(g, Xor(crc, BitWord(bits[0]))), bits[1..])
  }

  lemma {:induction false} FeedConcat(g: Generator, crc: Word, a: seq<bool>, b: seq<bool>)
    ensures Feed(g, crc, a + b) == Feed(g, Feed(g, crc, a), b)
    decreases |a|
  {
    if a == [] {
      assert a + b == b;
    } else {
      assert (a + b)[1..] == a[1..] + b;
      FeedConcat(g, Turn(g, Xor(crc, BitWord(a[0]))), a[1..], b);
    }
  }

  /** A turn shifts out the bit that was folded in and leaves the others folded in. */
  lemma TurnAbsorbs(g: Generator, crc: Word, t: seq<bool>)
    requires 0 < |t| <= 32
    ensures Turn(g, Xor(crc, Pad(t))) == Xor(Turn(g, Xor(crc, BitWord(t[0]))), Pad(t[1..]))
  {
  }

  /** Folding up to 32 bits in at once and turning is feeding them one at a time. */
  lemma {:induction false} TurnsAreFeed(g: Generator, crc: Word, t: seq<bool>)
    requires |t| <= 32
    ensures Turns(g, Xor(crc, Pad(t)), |t|) == Feed(g, crc, t)
    decreases |t|
  {
    if t == [] {
      assert Xor(crc, Pad(t)) == crc;
    } else {
      TurnAbsorbs(g, crc, t);
      TurnsAreFeed(g, Turn(g, Xor(crc, BitWord(t[0]))), t[1..]);
    }
  }

  /** The byte loop is the bit-serial register of the standard. */
  lemma {:induction false} RegisterIsFeed(g: Generator, crc: Word, s: seq<byte>)
    ensures Register(g, crc, s) == Feed(g, crc, StreamBits(s))
    decreases |s|
  {
    if s != [] {
      TurnsAreFeed(g, crc, ByteBits(s[0]));
      FeedConcat(g, crc, ByteBits(s[0]), StreamBits(s[1..]));
      RegisterIsFeed(g, TakeByte(g, crc, s[0]), s[1..]);
    }
  }

  // ----- Detection of bursts -----

  /** A bit is set at position `k` or above. */
  predicate HasBitFrom(d: Word, k: nat) {
    exists i :: k <= i < 32 && d[i]
  }

  /** Two registers that differ at position k or above still differ at k - 1 or above after one more bit each. */
  lemma DifferenceSurvives(g: Generator, a: Word, b: Word, x: bool, y: bool, k: nat)
    requires 0 < k
    requires HasBitFrom(Xor(a, b), k)
    ensures HasBitFrom(Xor(Turn(g, Xor(a, BitWord(x))), Turn(g, Xor(b, BitWord(y)))), k - 1)
  {
    var i :| k <= i < 32 && Xor(a, b)[i];
    var p, q := Xor(a, BitWord(x)), Xor(b, BitWord(y));
    var d := Xor(Turn(g, p), Turn(g, q));
    assert p[i] != q[i];
    if p[0] == q[0] {
      assert d[i - 1];
    } else {
      assert d[31];
    }
  }

  /** From registers that differ at `|t|` or above, no bits of that length lead to the same register. */
  lemma {:induction false} Diverges(g: Generator, a: Word, b: Word, t: seq<bool>, u: seq<bool>)
    requires |t| == |u|
    requires HasBitFrom(Xor(a, b), |t|)
    ensures Feed(g, a, t) != Feed(g, b, u)
    decreases |t|
  {
    if t == [] {
      var i :| 0 <= i < 32 && Xor(a, b)[i];
      assert a[i] != b[i];
    } else {
      DifferenceSurvives(g, a, b, t[0], u[0], |t|);
      Diverges(g, Turn(g, Xor(a, BitWord(t[0]))), Turn(g, Xor(b, BitWord(u[0]))), t[1..], u[1..]);
    }
  }

  lemma FirstDifference(g: Generator, crc: Word)
    ensures Xor(Turn(g, Xor(crc, BitWord(true))), Turn(g, Xor(crc, BitWord(false))))[31]
  {
  }

  /** From one register, two different bit strings of at most 32 bits lead to different registers. */
  lemma {:induction false} WindowDetected(g: Generator, crc: Word, t: seq<bool>, u: seq<bool>)
    requires |t| == |u| <= 32
    requires t != u
    ensures Feed(g, crc, t) != Feed(g, crc, u)
    decreases |t|
  {
    if t[0] == u[0] {
      assert t == [t[0]] + t[1..] && u == [u[0]] + u[1..];
      WindowDetected(g, Turn(g, Xor(crc, BitWord(t[0]))), t[1..], u[1..]);
    } else {
      var a, b := Turn(g, Xor(crc, BitWord(t[0]))), Turn(g, Xor(crc, BitWord(u[0])));
      FirstDifference(g, crc);
      assert Xor(a, b)[31];
      Diverges(g, a, b, t[1..], u[1..]);
    }
  }

  lemma TurnInjective(g: Generator, a: Word, b: Word)
    requires a != b
    ensures Turn(g, a) != Turn(g, b)
  {
    var i :| 0 <= i < 32 && a[i] != b[i];
    if a[0] == b[0] {
      assert Turn(g, a)[i - 1] != Turn(g, b)[i - 1];
    } else {
      assert Turn(g, a)[31] != Turn(g, b)[31];
    }
  }

  /** Common bits never bring two different registers together. */
  lemma {:induction false} FeedInjective(g: Generator, a: Word, b: Word, t: seq<bool>)
    requires a != b
    ensures Feed(g, a, t) != Feed(g, b, t)
    decreases |t|
  {
    if t != [] {
      var i :| 0 <= i < 32 && a[i] != b[i];
      var p, q := Xor(a, BitWord(t[0])), Xor(b, BitWord(t[0]));
      assert p[i] != q[i];
      TurnInjective(g, p, q);
      FeedInjective(g, Turn(g, p), Turn(g, q), t[1..]);
    }
  }

  lemma FeedSplit(g: Generator, crc: Word, x: seq<bool>, from: nat, to: nat)
    requires from <= to <= |x|
    ensures Feed(g, crc, x) == Feed(g, Feed(g, Feed(g, crc, x[..from]), x[from..to]), x[to..])
  {
    FeedConcat(g, crc, x[..from], x[from..]);
    assert x == x[..from] + x[from..];
    FeedConcat(g, Feed(g, crc, x[..from]), x[from..to], x[to..]);
    assert x[from..] == x[from..to] + x[to..];
  }

  lemma WindowsDiffer(a: seq<byte>, b: seq<byte>, from: nat, to: nat)
    requires |a| == |b| && a != b
    requires from <= to <= 8 * |a|
    requires StreamBits(a)[..from] == StreamBits(b)[..from]
    requires StreamBits(a)[to..] == StreamBits(b)[to..]
    ensures StreamBits(a)[from..to] != StreamBits(b)[from..to]
  {
    var x, y := StreamBits(a), StreamBits(b);
    if x[from..to] == y[from..to] {
      assert x == x[..from] + x[from..to] + x[to..];
      assert y == y[..from] + y[from..to] + y[to..];
      StreamBitsInjective(a, b);
    }
  }

  lemma RegistersDiffer(g: Generator, a: seq<byte>, b: seq<byte>, from: nat, to: nat)
    requires |a| == |b| && a != b
    requires from <= to <= 8 * |a| && to - from <= 32
    requires StreamBits(a)[..from] == StreamBits(b)[..from]
    requires StreamBits(a)[to..] == StreamBits(b)[to..]
    ensures Register(g, ALL_ONES, a) != Register(g, ALL_ONES, b)
  {
    var x, y := StreamBits(a), StreamBits(b);
    WindowsDiffer(a, b, from, to);
    RegisterIsFeed(g, ALL_ONES, a);
    RegisterIsFeed(g, ALL_ONES, b);
    FeedSplit(g, ALL_ONES, x, from, to);
    FeedSplit(g, ALL_ONES, y, from, to);
    var crc := Feed(g, ALL_ONES, x[..from]);
    WindowDetected(g, crc, x[from..to], y[from..to]);
    FeedInjective(g, Feed(g, crc, x[from..to]), Feed(g, crc, y[from..to]), x[to..]);
  }

  lemma XorInjective(p: Word, q: Word, mask: Word)
    requires p != q
    ensures Xor(p, mask) != Xor(q, mask)
  {
    var i :| 0 <= i < 32 && p[i] != q[i];
    assert Xor(p, mask)[i] != Xor(q, mask)[i];
  }

  /**
   Every burst of at most 32 bits is detected: two byte strings of one length whose bits
   differ only inside the window [from, to) of at most 32 bits have different checksums.
   */
  lemma BurstDetected(a: seq<byte>, b: seq<byte>, from: nat, to: nat)
    requires |a| == |b| && a != b
    requires from <= to <= 8 * |a| && to - from <= 32
    requires StreamBits(a)[..from] == StreamBits(b)[..from]
    requires StreamBits(a)[to..] == StreamBits(b)[to..]
    ensures Of(a) != Of(b)
  {
    RegistersDiffer(Ieee(), a, b, from, to);
    XorInjective(Register(Ieee(), ALL_ONES, a), Register(Ieee(), ALL_ONES, b), ALL_ONES);
    NatOfBits(Checksum(Ieee(), a));
    NatOfBits(Checksum(Ieee(), b));
  }

  lemma {:induction false} StreamBitsConcat(a: seq<byte>, b: seq<byte>)
    ensures StreamBits(a + b) == StreamBits(a) + StreamBits(b)
  {
    if a == [] {
      assert a + b == b;
    } else {
      assert (a + b)[1..] == a[1..] + b;
      StreamBitsConcat(a[1..], b);
    }
  }

  /** In bytes: damage confined to four consecutive bytes is always detected. */
  lemma FourByteBurstDetected(prefix: seq<byte>, a: seq<byte>, b: seq<byte>, suffix: seq<byte>)
    requires |a| == |b| <= 4 && a != b
    ensures Of(prefix + a + suffix) != Of(prefix + b + suffix)
  {
    var from, to := 8 * |prefix|, 8 * (|prefix| + |a|);
    StreamBitsConcat(prefix + a, suffix);
    StreamBitsConcat(prefix, a);
    StreamBitsConcat(prefix + b, suffix);
    StreamBitsConcat(prefix, b);
    var x, y := StreamBits(prefix + a + suffix), StreamBits(prefix + b + suffix);
    assert x[..from] == StreamBits(prefix) == y[..from];
    assert x[to..] == StreamBits(suffix) == y[to..];
    assert (prefix + a + suffix)[|prefix|..|prefix| + |a|] == a;
    assert (prefix + b + suffix)[|prefix|..|prefix| + |a|] == b;
    BurstDetected(prefix + a + suffix, prefix + b + suffix, from, to);
  }
}
