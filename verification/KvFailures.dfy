/**
 An append that fails inside a group. The writer reports the error to the callers of that group and goes on: requests
 already queued are written behind whatever the failed append left, and acknowledged.
 */
module KvFailures {
  import opened Bytes
  import opened Common
  import opened Wal
  import opened Snapshot
  import opened KvTable

  /** The log after a group of which only `room` bytes were written, and a group that was written whole. */
  function LogBehindFailure(
    crc: Checksum, log: seq<WalRecord>, failed: seq<WalRecord>, room: nat, acked: seq<WalRecord>): seq<byte> {
    EncodeAll(crc, log) + Fits(EncodeAll(crc, failed), room) + EncodeAll(crc, acked)
  }

  /** How far the failed append got into a record. */
  function IntoRecord(crc: Checksum, failed: seq<WalRecord>, room: nat): int {
    room - |EncodeAll(crc, failed[..WholeRecords(crc, failed, room)])|
  }

  lemma MagicBytes()
    ensures U32(MAGIC) == [0x32, 0x4b, 0x56, 0x4c]
  {
    assert LittleEndian(MAGIC / 256 / 256 / 256 / 256, 0) == [];
    assert LittleEndian(MAGIC / 256 / 256 / 256, 1) == [0x4c];
    assert LittleEndian(MAGIC / 256 / 256, 2) == [0x56, 0x4c];
    assert LittleEndian(MAGIC / 256, 3) == [0x4b, 0x56, 0x4c];
  }

  /** A record behind one to three bytes of another is no longer at the start of a record. */
  lemma NextBehindMagic(crc: Checksum, r: WalRecord, k: nat, acked: WalRecord, rest: seq<byte>)
    requires 0 < k < 4
    ensures Next(crc, Encode(crc, r)[..k] + (Encode(crc, acked) + rest)) == Corrupt(BadHeader)
  {
    hide LittleEndian, FromLittleEndian, Encode, Body;
    var s := Encode(crc, r)[..k] + (Encode(crc, acked) + rest);
    MagicBytes();
    Layout(crc, r, []);
    Layout(crc, acked, []);
    var e, f := Encode(crc, r) + [], Encode(crc, acked) + [];
    assert e == Encode(crc, r) && f == Encode(crc, acked);
    assert f[..4][0] == f[0] == 0x32 && e[..4][0] == e[0];
    assert s[k] == Encode(crc, acked)[0];
    assert s[..4][k] == 0x32 && U32(MAGIC)[k] != 0x32;
    FromLittleEndianRoundTrip(s[..4]);
  }

  /** The rest of a record is looked for in what follows; when that is too short, the record reads as torn. */
  lemma NextBehindHeader(crc: Checksum, r: WalRecord, k: nat, rest: seq<byte>)
    requires Bounded(r) && 15 <= k <= |Encode(crc, r)| && k + |rest| < |Encode(crc, r)|
    ensures Next(crc, Encode(crc, r)[..k] + rest) == Torn
  {
    hide LittleEndian, FromLittleEndian, Encode, Body;
    var e, s := Encode(crc, r), Encode(crc, r)[..k] + rest;
    Layout(crc, r, []);
    assert e + [] == e;
    U32RoundTrip(MAGIC);
    U32RoundTrip(|r.key|);
    U32RoundTrip(|r.value|);
    assert s[..15] == e[..15];
    assert s[..4] == s[..15][..4] == e[..4];
    assert s[7..11] == s[..15][7..11] == e[7..11];
    assert s[11..15] == s[..15][11..15] == e[11..15];
    assert s[4] == s[..15][4] && s[6] == s[..15][6];
  }

  /** The parts of the log. */
  lemma LogParts(crc: Checksum, log: seq<WalRecord>, failed: seq<WalRecord>, room: nat, acked: seq<WalRecord>)
    requires room < |EncodeAll(crc, failed)|
    ensures var n, k := WholeRecords(crc, failed, room), IntoRecord(crc, failed, room);
            && n < |failed| && 0 <= k < |Encode(crc, failed[n])|
            && LogBehindFailure(crc, log, failed, room, acked)
               == EncodeAll(crc, log + failed[..n]) + (Encode(crc, failed[n])[..k] + EncodeAll(crc, acked))
  {
    hide Encode, EncodeAll;
    var n := WholeRecords(crc, failed, room);
    CutShape(crc, failed, room);
    EncodeAllConcat(crc, log, failed[..n]);
    assert EncodeAll(crc, failed)[..room] == Fits(EncodeAll(crc, failed), room);
  }

  /**
   What `open` makes of that log. When the failed append stopped between two records, it finds all that was
   acknowledged, and the records of the failed group before the stop. When it stopped one to three bytes into a record,
   `open` fails. When it stopped behind the header of a record longer than all that follows, `open` succeeds without
   what was acknowledged.
   */
  lemma OpenBehindFailure(
    crc: Checksum, base: Table, log: seq<WalRecord>, failed: seq<WalRecord>, room: nat, acked: seq<WalRecord>)
    requires AllDurable(log) && AllDurable(failed) && AllDurable(acked) && acked != [] && room < |EncodeAll(crc, failed)|
    ensures var n, k := WholeRecords(crc, failed, room), IntoRecord(crc, failed, room);
            var file, whole := LogBehindFailure(crc, log, failed, room, acked), log + failed[..n];
            var r := Replay(crc, Apply, base, file, 0);
            && n < |failed| && AllDurable(whole) && AllDurable(whole + acked)
            && (k == 0 ==> r == Replayed(Ok, After(base, whole + acked), |file|))
            && (0 < k < 4 ==> r.status == Internal)
            && (15 <= k && k + |EncodeAll(crc, acked)| < |Encode(crc, failed[n])| ==>
                  r == Replayed(Ok, After(base, whole), |EncodeAll(crc, whole)|))
  {
    hide Encode, EncodeAll, Effects, MutateAll, Next, Durable;
    var n, k := WholeRecords(crc, failed, room), IntoRecord(crc, failed, room);
    LogParts(crc, log, failed, room, acked);
    var whole, torn, rest := log + failed[..n], Encode(crc, failed[n])[..k], EncodeAll(crc, acked);
    assert AllDurable(whole + acked);
    var at := EncodeAll(crc, whole);
    var file := at + (torn + rest);
    DurableApplies(base, whole);
    assert file == [] + at + (torn + rest);
    ReplayWhole(crc, Apply, base, [], whole, torn + rest);
    assert file[|at|..] == torn + rest;
    if k == 0 {
      assert file == at + rest;
      EncodeAllConcat(crc, whole, acked);
      DurableApplies(base, whole + acked);
      ReplayClean(crc, Apply, base, whole + acked);
    } else if k < 4 {
      FirstRecord(crc, acked);
      NextBehindMagic(crc, failed[n], k, acked[0], EncodeAll(crc, acked[1..]));
    } else if 15 <= k && k + |rest| < |Encode(crc, failed[n])| {
      assert Bounded(failed[n]) by { assert Durable(failed[n]); DurableIsBounded(failed[n]); }
      NextBehindHeader(crc, failed[n], k, rest);
    }
  }

  lemma FirstRecord(crc: Checksum, rs: seq<WalRecord>)
    requires rs != []
    ensures EncodeAll(crc, rs) == Encode(crc, rs[0]) + EncodeAll(crc, rs[1..])
  {
    hide Encode;
  }

  lemma DurableIsBounded(r: WalRecord)
    requires Durable(r)
    ensures Bounded(r)
  {
    hide Effect;
  }

  // ----- What is read of the log -----

  /** A callback that keeps the records. */
  function Collect(read: seq<WalRecord>, r: WalRecord): Option<seq<WalRecord>> {
    Some(read + [r])
  }

  lemma {:induction false} CollectsAll(read: seq<WalRecord>, rs: seq<WalRecord>)
    ensures ApplyAll(Collect, read, rs) == Some(read + rs)
    decreases |rs|
  {
    if rs == [] {
      assert read + rs == read;
    } else {
      CollectsAll(read + [rs[0]], rs[1..]);
      assert read + [rs[0]] + rs[1..] == read + rs;
    }
  }

  /** What a replay keeps of a log is the encoding of what it read. */
  lemma {:induction false} ReadsWhatItKeeps(crc: Checksum, read: seq<WalRecord>, file: seq<byte>, at: nat)
    requires at <= |file| && file[..at] == EncodeAll(crc, read)
    ensures var r := Replay(crc, Collect, read, file, at);
            r.status == Ok ==> r.size <= |file| && file[..r.size] == EncodeAll(crc, r.state)
    decreases |file| - at
  {
    hide Encode, Next, EncodeAll;
    var scan := Next(crc, file[at..]);
    if scan.Found? {
      FoundIsEncoded(crc, file[at..]);
      OneMoreRecord(crc, read, scan.record);
      assert file[..at + scan.size] == file[..at] + file[at..][..scan.size];
      ReadsWhatItKeeps(crc, read + [scan.record], file, at + scan.size);
    } else if scan.EndOfLog? {
      AtEnd(crc, file[at..]);
      assert file[..|file|] == file[..at];
    }
  }

  lemma AtEnd(crc: Checksum, s: seq<byte>)
    requires Next(crc, s) == EndOfLog
    ensures s == []
  {}

  lemma OneMoreRecord(crc: Checksum, rs: seq<WalRecord>, r: WalRecord)
    ensures EncodeAll(crc, rs + [r]) == EncodeAll(crc, rs) + Encode(crc, r)
  {
    hide Encode;
    EncodeAllConcat(crc, rs, [r]);
    assert EncodeAll(crc, [r]) == Encode(crc, r);
  }

  /**
   All of the log is kept, and read as the whole records of the failed group and then what was acknowledged, exactly when
   the failed append stopped between two records.
   */
  lemma ReadWholeIff(crc: Checksum, log: seq<WalRecord>, failed: seq<WalRecord>, room: nat, acked: seq<WalRecord>)
    requires AllDurable(log) && AllDurable(failed) && AllDurable(acked) && room < |EncodeAll(crc, failed)|
    ensures var n := WholeRecords(crc, failed, room);
            var file := LogBehindFailure(crc, log, failed, room, acked);
            Replay(crc, Collect, [], file, 0) == Replayed(Ok, log + failed[..n] + acked, |file|)
            <==> IntoRecord(crc, failed, room) == 0
  {
    hide Encode, EncodeAll, Replay, Durable;
    var n, k := WholeRecords(crc, failed, room), IntoRecord(crc, failed, room);
    LogParts(crc, log, failed, room, acked);
    var file, all := LogBehindFailure(crc, log, failed, room, acked), log + failed[..n] + acked;
    EncodeAllConcat(crc, log + failed[..n], acked);
    assert |file| == |EncodeAll(crc, all)| + k;
    if k == 0 {
      assert file == EncodeAll(crc, all);
      forall i | 0 <= i < |all| ensures Bounded(all[i]) { assert Durable(all[i]); DurableIsBounded(all[i]); }
      CollectsAll([], all);
      assert [] + all == all;
      ReplayClean(crc, Collect, [], all);
    } else if Replay(crc, Collect, [], file, 0) == Replayed(Ok, all, |file|) {
      assert EncodeAll(crc, []) == [] by { NothingEncoded(crc, []); }
      ReadsWhatItKeeps(crc, [], file, 0);
    }
  }
}
