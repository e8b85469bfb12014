/** What replay makes of every file: which it reads, which it cuts behind the last whole record, and which it refuses. */
module WalFiles {
  import opened Bytes
  import opened Common
  import opened Wal
  import Crc32

  // ----- A record that is not there to its end -----

  /** The four bytes from `i` on as an unsigned integer, least significant first. */
  function NumberAt(t: seq<byte>, i: nat): nat
    requires i + 4 <= |t|
  {
    t[i] as nat + 256 * t[i + 1] as nat + 0x1_0000 * t[i + 2] as nat + 0x100_0000 * t[i + 3] as nat
  }

  /**
   Less than a magic number; or a magic number and less than a header; or a header that replay takes and fewer bytes
   than it announces.
   */
  predicate CutShort(t: seq<byte>) {
    && t != []
    && (|t| < 4 ||
        (&& t[..4] == [0x32, 0x4b, 0x56, 0x4c]
         && (|t| < 15 ||
             (&& t[4] == 1 && t[6] == 0 && NumberAt(t, 7) <= 16 * 1024 * 1024 && NumberAt(t, 11) <= 64 * 1024 * 1024
              && |t| < 15 + NumberAt(t, 7) + NumberAt(t, 11) + 4))))
  }

  lemma FourBytes(s: seq<byte>)
    requires |s| == 4
    ensures FromLittleEndian(s)
            == s[0] as nat + 256 * s[1] as nat + 0x1_0000 * s[2] as nat + 0x100_0000 * s[3] as nat
  {
    assert s[1..][1..] == s[2..] && s[2..][1..] == s[3..] && s[3..][1..] == [];
    assert FromLittleEndian(s[3..]) == s[3] as nat;
    assert FromLittleEndian(s[2..]) == s[2] as nat + 256 * s[3] as nat;
    assert FromLittleEndian(s[1..]) == s[1] as nat + 256 * FromLittleEndian(s[2..]);
  }

  lemma MagicIs(s: seq<byte>)
    requires |s| == 4
    ensures FromLittleEndian(s) == MAGIC <==> s == [0x32, 0x4b, 0x56, 0x4c]
  {
    hide FromLittleEndian;
    FourBytes(s);
  }

  lemma TornIffCutShort(crc: Checksum, t: seq<byte>)
    ensures Next(crc, t) == Torn <==> CutShort(t)
  {
    hide FromLittleEndian, LittleEndian;
    if |t| >= 4 { MagicIs(t[..4]); }
    if |t| >= 15 {
      FourBytes(t[7..11]);
      FourBytes(t[11..15]);
    }
  }

  lemma EndIffNothing(crc: Checksum, t: seq<byte>)
    ensures Next(crc, t) == EndOfLog <==> t == []
  {}

  // ----- All files -----

  /** The file is these records, which replay takes and the callback accepts, and behind them nothing or one cut short. */
  predicate Reads<S>(crc: Checksum, apply: Applier<S>, state: S, file: seq<byte>, rs: seq<WalRecord>, tail: seq<byte>) {
    AllBounded(rs) && ApplyAll(apply, state, rs).Some? && file == EncodeAll(crc, rs) + tail && (tail == [] || CutShort(tail))
  }

  lemma ReplayOfReadable<S>(crc: Checksum, apply: Applier<S>, state: S, file: seq<byte>, rs: seq<WalRecord>, tail: seq<byte>)
    requires Reads(crc, apply, state, file, rs, tail)
    ensures Replay(crc, apply, state, file, 0) == Replayed(Ok, ApplyAll(apply, state, rs).value, |EncodeAll(crc, rs)|)
  {
    hide EncodeAll, Next, CutShort;
    ReplayFront(crc, apply, state, rs, tail);
    TornIffCutShort(crc, tail);
    EndIffNothing(crc, tail);
  }

  lemma {:induction false} ReplayedIsReadable<S>(crc: Checksum, apply: Applier<S>, state: S, file: seq<byte>, at: nat)
    returns (rs: seq<WalRecord>, tail: seq<byte>)
    requires at <= |file| && Replay(crc, apply, state, file, at).status == Ok
    ensures Reads(crc, apply, state, file[at..], rs, tail)
    decreases |file| - at
  {
    hide Encode, Next, CutShort, Bounded;
    var t := file[at..];
    var scan := Next(crc, t);
    if scan.Found? {
      FoundIsEncoded(crc, t);
      var next := apply(state, scan.record).value;
      var more;
      more, tail := ReplayedIsReadable(crc, apply, next, file, at + scan.size);
      rs := [scan.record] + more;
      assert rs[1..] == more;
      assert t == t[..scan.size] + file[at + scan.size..];
    } else {
      rs, tail := [], t;
      TornIffCutShort(crc, t);
      EndIffNothing(crc, t);
      assert EncodeAll(crc, []) + t == t;
    }
  }

  lemma {:induction false} RefusedKeepsFile<S>(crc: Checksum, apply: Applier<S>, state: S, file: seq<byte>, at: nat)
    requires at <= |file| && Replay(crc, apply, state, file, at).status != Ok
    ensures var r := Replay(crc, apply, state, file, at); r.status == Internal && r.size == |file|
    decreases |file| - at
  {
    hide Next;
    var scan := Next(crc, file[at..]);
    if scan.Found? && apply(state, scan.record).Some? {
      RefusedKeepsFile(crc, apply, apply(state, scan.record).value, file, at + scan.size);
    }
  }

  /**
   For every file: replay succeeds exactly when the file is whole records within the limits, accepted one after the
   other, and then nothing or one record cut short; it ends with those records applied, and the file behind the last of
   them. Every other file is refused and kept as it is.
   */
  lemma ReplaySucceedsExactly<S>(crc: Checksum, apply: Applier<S>, state: S, file: seq<byte>)
    ensures Replay(crc, apply, state, file, 0).status == Ok <==> exists rs, tail :: Reads(crc, apply, state, file, rs, tail)
    ensures forall rs, tail :: Reads(crc, apply, state, file, rs, tail) ==>
              Replay(crc, apply, state, file, 0) == Replayed(Ok, ApplyAll(apply, state, rs).value, |EncodeAll(crc, rs)|)
    ensures var r := Replay(crc, apply, state, file, 0); r.status != Ok ==> r.status == Internal && r.size == |file|
  {
    hide Replay, EncodeAll, CutShort;
    forall rs, tail | Reads(crc, apply, state, file, rs, tail)
      ensures Replay(crc, apply, state, file, 0) == Replayed(Ok, ApplyAll(apply, state, rs).value, |EncodeAll(crc, rs)|)
    {
      ReplayOfReadable(crc, apply, state, file, rs, tail);
    }
    if Replay(crc, apply, state, file, 0).status == Ok {
      var rs, tail := ReplayedIsReadable(crc, apply, state, file, 0);
      assert file[0..] == file;
    } else {
      RefusedKeepsFile(crc, apply, state, file, 0);
    }
  }

  // ----- Damage -----

  /** A record whose checksum is that of another. */
  function Forged(r: WalRecord, stored: WalRecord): seq<byte> {
    U32(MAGIC) + Body(r) + U32(Crc32.Of(Body(stored)))
  }

  lemma ForgedLayout(r: WalRecord, stored: WalRecord, rest: seq<byte>)
    ensures var s, end := Forged(r, stored) + rest, 15 + |r.key| + |r.value|;
            && |s| >= end + 4 && s[..4] == U32(MAGIC) && s[4] == VERSION && s[6] == 0
            && s[7..11] == U32(|r.key|) && s[11..15] == U32(|r.value|)
            && s[4..end] == Body(r) && s[end..end + 4] == U32(Crc32.Of(Body(stored)))
  {
    hide Crc32.Of, LittleEndian;
    var s, b := Forged(r, stored) + rest, Body(r);
    assert s[4..4 + |b|] == b;
    assert b[..11] == Header(r.operation, |r.key|, |r.value|);
    assert s[4..15] == b[..11];
    assert s[7..11] == s[4..15][3..7] == U32(|r.key|);
    assert s[11..15] == s[4..15][7..11] == U32(|r.value|);
  }

  lemma NextOfForged(r: WalRecord, stored: WalRecord, rest: seq<byte>)
    requires Bounded(r) && Crc32.Of(Body(r)) != Crc32.Of(Body(stored))
    ensures Next(Crc32.Of, Forged(r, stored) + rest) == Corrupt(BadChecksum)
  {
    hide Crc32.Of, LittleEndian, FromLittleEndian, Body, Forged;
    ForgedLayout(r, stored, rest);
    U32RoundTrip(MAGIC);
    U32RoundTrip(|r.key|);
    U32RoundTrip(|r.value|);
    U32RoundTrip(Crc32.Of(Body(r)));
    U32RoundTrip(Crc32.Of(Body(stored)));
  }

  /** The two records differ only inside four consecutive bytes of key and value. */
  predicate Damaged(r: WalRecord, stored: WalRecord, prefix: seq<byte>, was: seq<byte>, now: seq<byte>, suffix: seq<byte>) {
    && r.operation == stored.operation && |r.key| == |stored.key| && |r.value| == |stored.value|
    && stored.key + stored.value == prefix + was + suffix && r.key + r.value == prefix + now + suffix
    && |was| == |now| <= 4 && was != now
  }

  lemma DamageChangesChecksum(r: WalRecord, stored: WalRecord, prefix: seq<byte>, was: seq<byte>, now: seq<byte>, suffix: seq<byte>)
    requires Damaged(r, stored, prefix, was, now, suffix)
    ensures Crc32.Of(Body(r)) != Crc32.Of(Body(stored))
  {
    hide Crc32.Of, LittleEndian;
    var header := Header(r.operation, |r.key|, |r.value|);
    assert Body(r) == header + (r.key + r.value) == header + prefix + now + suffix;
    assert Body(stored) == header + (stored.key + stored.value) == header + prefix + was + suffix;
    Crc32.FourByteBurstDetected(header + prefix, was, now, suffix);
  }

  /**
   A log of which one record was damaged within four consecutive bytes of its key or value, whatever follows: replay
   refuses it, and neither applies the record or what follows nor cuts the file.
   */
  lemma DamageRefused<S>(apply: Applier<S>, state: S, rs: seq<WalRecord>, r: WalRecord, stored: WalRecord,
                         prefix: seq<byte>, was: seq<byte>, now: seq<byte>, suffix: seq<byte>, rest: seq<byte>)
    requires AllBounded(rs) && ApplyAll(apply, state, rs).Some? && Bounded(stored)
    requires Damaged(r, stored, prefix, was, now, suffix)
    ensures var file := EncodeAll(Crc32.Of, rs) + (Forged(r, stored) + rest);
            Replay(Crc32.Of, apply, state, file, 0) == Replayed(Internal, ApplyAll(apply, state, rs).value, |file|)
    ensures Forged(stored, stored) == Encode(Crc32.Of, stored)
  {
    hide EncodeAll, Next, Crc32.Of;
    DamageChangesChecksum(r, stored, prefix, was, now, suffix);
    ReplayFront(Crc32.Of, apply, state, rs, Forged(r, stored) + rest);
    NextOfForged(r, stored, rest);
  }
}
