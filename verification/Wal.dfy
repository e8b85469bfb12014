/** The write-ahead log: framed, checksummed records appended to one file. */
module Wal {
  import opened Bytes
  import opened Common

  datatype WalRecord = WalRecord(operation: byte, key: seq<byte>, value: seq<byte>)

  /** The checksum is a parameter: the recovery results hold whatever it computes. */
  type Checksum = seq<byte> -> nat

  const SET: byte := 1
  const DELETE: byte := 2
  const BATCH: byte := 3

  const MAGIC: nat := 0x4c56_4b32
  const VERSION: byte := 1
  const MAX_KEY_SIZE: nat := 0x100_0000
  const MAX_VALUE_SIZE: nat := 0x400_0000

  // ----- Records -----

  /** What `append` accepts. */
  predicate Appendable(r: WalRecord) {
    r.key != [] && |r.key| < U32_LIMIT && |r.value| < U32_LIMIT
  }

  /** What `replay` accepts back. */
  predicate Bounded(r: WalRecord) {
    |r.key| <= MAX_KEY_SIZE && |r.value| <= MAX_VALUE_SIZE
  }

  /** The checksummed part of a record. */
  function Body(r: WalRecord): seq<byte> {
    Header(r.operation, |r.key|, |r.value|) + r.key + r.value
  }

  function Header(operation: byte, keySize: nat, valueSize: nat): (h: seq<byte>)
    ensures |h| == 11
  {
    [VERSION, operation, 0] + U32(keySize) + U32(valueSize)
  }

  function Encode(crc: Checksum, r: WalRecord): (e: seq<byte>)
    ensures |e| == 19 + |r.key| + |r.value|
  {
    U32(MAGIC) + Body(r) + U32(crc(Body(r)))
  }

  function EncodeAll(crc: Checksum, rs: seq<WalRecord>): seq<byte> {
    if rs == [] then [] else Encode(crc, rs[0]) + EncodeAll(crc, rs[1..])
  }

  lemma {:induction false} EncodeAllConcat(crc: Checksum, a: seq<WalRecord>, b: seq<WalRecord>)
    ensures EncodeAll(crc, a + b) == EncodeAll(crc, a) + EncodeAll(crc, b)
  {
    if a == [] {
      assert a + b == b;
    } else {
      assert (a + b)[1..] == a[1..] + b;
      EncodeAllConcat(crc, a[1..], b);
    }
  }

  // ----- Reading one record -----

  datatype Corruption = BadHeader | BadRecord | BadChecksum

  datatype Scan =
    | EndOfLog
    | Torn
    | Corrupt(reason: Corruption)
    | Found(record: WalRecord, size: nat)

  /** The next record of the bytes that remain from the read position on. */
  function Next(crc: Checksum, s: seq<byte>): (r: Scan)
    ensures r.Found? ==> 19 <= r.size <= |s|
  {
    if s == [] then EndOfLog
    else if |s| < 4 then Torn
    else if FromLittleEndian(s[..4]) != MAGIC then Corrupt(BadHeader)
    else if |s| < 15 then Torn
    else
      var keySize := FromLittleEndian(s[7..11]);
      var valueSize := FromLittleEndian(s[11..15]);
      var end := 15 + keySize + valueSize;
      if s[4] != VERSION || s[6] != 0 || keySize > MAX_KEY_SIZE || valueSize > MAX_VALUE_SIZE then Corrupt(BadRecord)
      else if |s| < end + 4 then Torn
      else if U32(crc(s[4..end])) != s[end..end + 4] then Corrupt(BadChecksum)
      else Found(WalRecord(s[5], s[15..15 + keySize], s[15 + keySize..end]), end + 4)
  }

  /** The fields of an encoded record, seen from the front of any longer file. */
  lemma Layout(crc: Checksum, r: WalRecord, rest: seq<byte>)
    ensures var s := Encode(crc, r) + rest;
            var end := 15 + |r.key| + |r.value|;
            && s[..4] == U32(MAGIC)
            && s[4] == VERSION && s[5] == r.operation && s[6] == 0
            && s[7..11] == U32(|r.key|) && s[11..15] == U32(|r.value|)
            && s[15..15 + |r.key|] == r.key && s[15 + |r.key|..end] == r.value
            && s[4..end] == Body(r) && s[end..end + 4] == U32(crc(Body(r)))
  {
    var s := Encode(crc, r) + rest;
    var b := Body(r);
    assert s[4..4 + |b|] == b;
    assert b[..11] == Header(r.operation, |r.key|, |r.value|);
    assert s[4..15] == b[..11];
    assert s[7..11] == s[4..15][3..7] == U32(|r.key|);
    assert s[11..15] == s[4..15][7..11] == U32(|r.value|);
  }

  lemma NextOfEncode(crc: Checksum, r: WalRecord, rest: seq<byte>)
    requires Bounded(r)
    ensures Next(crc, Encode(crc, r) + rest) == Found(r, |Encode(crc, r)|)
  {
    hide LittleEndian, FromLittleEndian, Encode, Body;
    Layout(crc, r, rest);
    U32RoundTrip(MAGIC);
    U32RoundTrip(|r.key|);
    U32RoundTrip(|r.value|);
  }

  /** A record is found exactly where its encoding stands: nothing else passes for one. */
  lemma FoundIff(crc: Checksum, s: seq<byte>, r: WalRecord)
    ensures Next(crc, s) == Found(r, |Encode(crc, r)|) <==> Bounded(r) && Encode(crc, r) <= s
  {
    if Bounded(r) && Encode(crc, r) <= s {
      assert s == Encode(crc, r) + s[|Encode(crc, r)|..];
      NextOfEncode(crc, r, s[|Encode(crc, r)|..]);
    }
    if Next(crc, s) == Found(r, |Encode(crc, r)|) { FoundIsEncoded(crc, s); }
  }

  lemma FoundIsEncoded(crc: Checksum, s: seq<byte>)
    requires Next(crc, s).Found?
    ensures Bounded(Next(crc, s).record) && Encode(crc, Next(crc, s).record) == s[..Next(crc, s).size]
  {
    hide LittleEndian, FromLittleEndian;
    var r, k, v := Next(crc, s).record, FromLittleEndian(s[7..11]), FromLittleEndian(s[11..15]);
    FromLittleEndianRoundTrip(s[..4]);
    FromLittleEndianRoundTrip(s[7..11]);
    FromLittleEndianRoundTrip(s[11..15]);
    var end := 15 + k + v;
    assert s[4..7] == [VERSION, r.operation, 0];
    assert s[4..15] == s[4..7] + s[7..11] + s[11..15];
    assert s[4..end] == s[4..15] + r.key + r.value;
    assert s[..end + 4] == s[..4] + s[4..end] + s[end..end + 4];
  }

  /** A record that `append` took but whose size `replay` refuses. */
  lemma NextOfOversized(crc: Checksum, r: WalRecord, rest: seq<byte>)
    requires Appendable(r) && !Bounded(r)
    ensures Next(crc, Encode(crc, r) + rest) == Corrupt(BadRecord)
  {
    hide LittleEndian, FromLittleEndian, Encode, Body;
    Layout(crc, r, rest);
    U32RoundTrip(MAGIC);
    U32RoundTrip(|r.key|);
    U32RoundTrip(|r.value|);
  }

  /** Any proper prefix of a record reads as a torn write. */
  lemma NextOfCut(crc: Checksum, r: WalRecord, cut: nat)
    requires Bounded(r)
    requires 0 < cut < |Encode(crc, r)|
    ensures Next(crc, Encode(crc, r)[..cut]) == Torn
  {
    hide LittleEndian, FromLittleEndian, Encode, Body;
    var e := Encode(crc, r);
    Layout(crc, r, []);
    assert e + [] == e;
    var t := e[..cut];
    U32RoundTrip(MAGIC);
    U32RoundTrip(|r.key|);
    U32RoundTrip(|r.value|);
    if cut >= 4 { assert t[..4] == e[..4]; }
    if cut >= 15 {
      assert t[7..11] == e[7..11];
      assert t[11..15] == e[11..15];
    }
  }

  // ----- Replay -----

  /** The callback of `replay`: the new state, or None when it reports an error. */
  type Applier<!S> = (S, WalRecord) -> Option<S>

  /** How a replay ended: its status, the state reached and the length the file is left with. */
  datatype Replayed<S> = Replayed(status: Status, state: S, size: nat)

  function Replay<S>(crc: Checksum, apply: Applier<S>, state: S, file: seq<byte>, at: nat): Replayed<S>
    requires at <= |file|
    decreases |file| - at
  {
    match Next(crc, file[at..])
    case EndOfLog => Replayed(Ok, state, |file|)
    case Torn => Replayed(Ok, state, at)
    case Corrupt(_) => Replayed(Internal, state, |file|)
    case Found(record, size) =>
      match apply(state, record)
      case None => Replayed(Internal, state, |file|)
      case Some(state') => Replay(crc, apply, state', file, at + size)
  }

  /** The records applied one after the other. */
  function ApplyAll<S>(apply: Applier<S>, state: S, rs: seq<WalRecord>): Option<S> {
    if rs == [] then Some(state)
    else
      match apply(state, rs[0])
      case None => None
      case Some(state') => ApplyAll(apply, state', rs[1..])
  }

  predicate AllBounded(rs: seq<WalRecord>) {
    forall i :: 0 <= i < |rs| ==> Bounded(rs[i])
  }

  /** Replay walks over whole records and carries on behind them. */
  lemma {:induction false} ReplayWhole<S>(crc: Checksum, apply: Applier<S>, state: S, pre: seq<byte>,
                                          rs: seq<WalRecord>, rest: seq<byte>)
    requires AllBounded(rs)
    requires ApplyAll(apply, state, rs).Some?
    ensures var file := pre + EncodeAll(crc, rs) + rest;
            Replay(crc, apply, state, file, |pre|)
            == Replay(crc, apply, ApplyAll(apply, state, rs).value, file, |pre| + |EncodeAll(crc, rs)|)
    decreases |rs|
  {
    hide Encode, Next, LittleEndian;
    if rs != [] {
      var file := pre + EncodeAll(crc, rs) + rest;
      var e, more := Encode(crc, rs[0]), EncodeAll(crc, rs[1..]);
      assert file[|pre|..] == e + (more + rest);
      NextOfEncode(crc, rs[0], more + rest);
      assert file == (pre + e) + more + rest;
      ReplayWhole(crc, apply, apply(state, rs[0]).value, pre + e, rs[1..], rest);
    }
  }

  /**
   A log whose last append was cut anywhere replays exactly the whole records and is
   truncated to their end.
   */
  lemma ReplayTorn<S>(crc: Checksum, apply: Applier<S>, state: S, rs: seq<WalRecord>, last: WalRecord, cut: nat)
    requires AllBounded(rs) && Bounded(last)
    requires cut < |Encode(crc, last)|
    requires ApplyAll(apply, state, rs).Some?
    ensures Replay(crc, apply, state, EncodeAll(crc, rs) + Encode(crc, last)[..cut], 0)
            == Replayed(Ok, ApplyAll(apply, state, rs).value, |EncodeAll(crc, rs)|)
  {
    hide Encode, EncodeAll, Next;
    var tail := Encode(crc, last)[..cut];
    ReplayFront(crc, apply, state, rs, tail);
    if cut > 0 { NextOfCut(crc, last, cut); } else { NextOfNothing(crc); }
  }

  /** A replay of whole records and what follows goes on at what follows. */
  lemma ReplayFront<S>(crc: Checksum, apply: Applier<S>, state: S, rs: seq<WalRecord>, rest: seq<byte>)
    requires AllBounded(rs) && ApplyAll(apply, state, rs).Some?
    ensures var file, at := EncodeAll(crc, rs) + rest, |EncodeAll(crc, rs)|;
            && file[at..] == rest
            && Replay(crc, apply, state, file, 0) == Replay(crc, apply, ApplyAll(apply, state, rs).value, file, at)
  {
    hide EncodeAll, Replay;
    assert [] + EncodeAll(crc, rs) + rest == EncodeAll(crc, rs) + rest;
    ReplayWhole(crc, apply, state, [], rs, rest);
  }

  lemma NextOfNothing(crc: Checksum)
    ensures Next(crc, []) == EndOfLog
  {}

  lemma ReplayClean<S>(crc: Checksum, apply: Applier<S>, state: S, rs: seq<WalRecord>)
    requires AllBounded(rs)
    requires ApplyAll(apply, state, rs).Some?
    ensures Replay(crc, apply, state, EncodeAll(crc, rs), 0)
            == Replayed(Ok, ApplyAll(apply, state, rs).value, |EncodeAll(crc, rs)|)
  {
    hide EncodeAll, Next;
    ReplayFront(crc, apply, state, rs, []);
    assert EncodeAll(crc, rs) + [] == EncodeAll(crc, rs);
    NextOfNothing(crc);
  }

  /** The first record that replay refuses: too large for it, or refused by the callback. */
  predicate Refused<S>(apply: Applier<S>, state: S, rs: seq<WalRecord>, i: nat)
    requires i < |rs|
  {
    && AllBounded(rs[..i])
    && ApplyAll(apply, state, rs[..i]).Some?
    && (!Bounded(rs[i]) || apply(ApplyAll(apply, state, rs[..i]).value, rs[i]).None?)
  }

  /** A log around its record `i`. */
  lemma EncodeAllAt(crc: Checksum, rs: seq<WalRecord>, i: nat)
    requires i < |rs|
    ensures EncodeAll(crc, rs) == EncodeAll(crc, rs[..i]) + (Encode(crc, rs[i]) + EncodeAll(crc, rs[i + 1..]))
  {
    hide Encode;
    assert rs == rs[..i] + rs[i..];
    EncodeAllConcat(crc, rs[..i], rs[i..]);
    assert rs[i..][1..] == rs[i + 1..];
  }

  lemma ReplayStops<S>(crc: Checksum, apply: Applier<S>, state: S, file: seq<byte>, at: nat, r: WalRecord, rest: seq<byte>)
    requires at <= |file| && file[at..] == Encode(crc, r) + rest
    requires Appendable(r)
    requires !Bounded(r) || apply(state, r).None?
    ensures Replay(crc, apply, state, file, at).status == Internal
  {
    hide Encode, Next;
    if Bounded(r) {
      NextOfEncode(crc, r, rest);
    } else {
      NextOfOversized(crc, r, rest);
    }
  }

  lemma ReplayRefused<S>(crc: Checksum, apply: Applier<S>, state: S, rs: seq<WalRecord>, i: nat)
    requires i < |rs| && Appendable(rs[i]) && Refused(apply, state, rs, i)
    ensures Replay(crc, apply, state, EncodeAll(crc, rs), 0).status == Internal
  {
    hide Encode, Next, EncodeAll, Replay, Appendable, Bounded;
    var a, b := EncodeAll(crc, rs[..i]), EncodeAll(crc, rs[i + 1..]);
    EncodeAllAt(crc, rs, i);
    ReplayFront(crc, apply, state, rs[..i], Encode(crc, rs[i]) + b);
    ReplayStops(crc, apply, ApplyAll(apply, state, rs[..i]).value, EncodeAll(crc, rs), |a|, rs[i], b);
  }

  lemma {:induction false} RefusalExists<S>(apply: Applier<S>, state: S, rs: seq<WalRecord>) returns (i: nat)
    requires !(AllBounded(rs) && ApplyAll(apply, state, rs).Some?)
    ensures i < |rs| && Refused(apply, state, rs, i)
    decreases |rs|
  {
    if !Bounded(rs[0]) || apply(state, rs[0]).None? {
      i := 0;
    } else {
      var state' := apply(state, rs[0]).value;
      assert rs == [rs[0]] + rs[1..];
      var j := RefusalExists(apply, state', rs[1..]);
      i := j + 1;
      assert rs[..i][1..] == rs[1..][..j];
      forall k | 0 <= k < i ensures Bounded(rs[..i][k]) {
        if k > 0 { assert rs[..i][k] == rs[1..][..j][k - 1]; }
      }
    }
  }

  /** Appended records can be read back if and only if replay's own bounds and the callback admit every one. */
  lemma ReplaySucceedsIff<S>(crc: Checksum, apply: Applier<S>, state: S, rs: seq<WalRecord>)
    requires forall i :: 0 <= i < |rs| ==> Appendable(rs[i])
    ensures Replay(crc, apply, state, EncodeAll(crc, rs), 0).status == Ok
            <==> AllBounded(rs) && ApplyAll(apply, state, rs).Some?
  {
    if AllBounded(rs) && ApplyAll(apply, state, rs).Some? {
      ReplayClean(crc, apply, state, rs);
    } else {
      var i := RefusalExists(apply, state, rs);
      ReplayRefused(crc, apply, state, rs, i);
    }
  }

  // ----- Cutting a log -----

  /** How many whole records fit into the first `cut` bytes. */
  function WholeRecords(crc: Checksum, rs: seq<WalRecord>, cut: nat): (n: nat)
    ensures n <= |rs|
  {
    if rs == [] || cut < |Encode(crc, rs[0])| then 0
    else 1 + WholeRecords(crc, rs[1..], cut - |Encode(crc, rs[0])|)
  }

  lemma FirstThenPrefix(crc: Checksum, rs: seq<WalRecord>, n: nat)
    requires 0 < n <= |rs|
    ensures EncodeAll(crc, rs[..n]) == Encode(crc, rs[0]) + EncodeAll(crc, rs[1..][..n - 1])
  {
    hide Encode;
    assert rs[..n][1..] == rs[1..][..n - 1];
  }

  lemma TakeBehind(e: seq<byte>, rest: seq<byte>, cut: nat)
    requires |e| <= cut <= |e + rest|
    ensures (e + rest)[..cut] == e + rest[..cut - |e|]
  {}

  lemma {:induction false} CutShape(crc: Checksum, rs: seq<WalRecord>, cut: nat)
    requires cut <= |EncodeAll(crc, rs)|
    ensures var n := WholeRecords(crc, rs, cut);
            && |EncodeAll(crc, rs[..n])| <= cut
            && (n == |rs| ==> EncodeAll(crc, rs)[..cut] == EncodeAll(crc, rs))
            && (n < |rs| ==>
                  && cut - |EncodeAll(crc, rs[..n])| < |Encode(crc, rs[n])|
                  && EncodeAll(crc, rs)[..cut]
                     == EncodeAll(crc, rs[..n]) + Encode(crc, rs[n])[..cut - |EncodeAll(crc, rs[..n])|])
    decreases |rs|
  {
    hide Encode;
    var n := WholeRecords(crc, rs, cut);
    if rs == [] {
      assert rs[..n] == [];
    } else if cut < |Encode(crc, rs[0])| {
      assert rs[..n] == [];
      assert EncodeAll(crc, rs)[..cut] == Encode(crc, rs[0])[..cut];
    } else {
      var e, rest := Encode(crc, rs[0]), rs[1..];
      CutShape(crc, rest, cut - |e|);
      FirstThenPrefix(crc, rs, n);
      TakeBehind(e, EncodeAll(crc, rest), cut);
      if n < |rs| { assert rest[n - 1] == rs[n]; }
    }
  }

  /** For every log and every cut of its bytes, replay applies exactly the whole records before the cut. */
  lemma ReplayCut<S>(crc: Checksum, apply: Applier<S>, state: S, rs: seq<WalRecord>, cut: nat)
    requires AllBounded(rs)
    requires cut <= |EncodeAll(crc, rs)|
    requires ApplyAll(apply, state, rs[..WholeRecords(crc, rs, cut)]).Some?
    ensures var whole := rs[..WholeRecords(crc, rs, cut)];
            Replay(crc, apply, state, EncodeAll(crc, rs)[..cut], 0)
            == Replayed(Ok, ApplyAll(apply, state, whole).value, |EncodeAll(crc, whole)|)
  {
    hide Encode, EncodeAll, WholeRecords, Replay, ApplyAll;
    var n := WholeRecords(crc, rs, cut);
    CutShape(crc, rs, cut);
    if n == |rs| {
      assert rs[..n] == rs;
      ReplayClean(crc, apply, state, rs);
    } else {
      ReplayTorn(crc, apply, state, rs[..n], rs[n], cut - |EncodeAll(crc, rs[..n])|);
    }
  }

  // ----- Writes that fail -----

  /** What reaches the file when only `room` more bytes can be written. */
  function Fits(bytes: seq<byte>, room: nat): seq<byte> {
    if room < |bytes| then bytes[..room] else bytes
  }

  lemma FitsBoth(a: seq<byte>, b: seq<byte>, room: nat)
    ensures Fits(a + b, room) == if |a| <= room then a + Fits(b, room - |a|) else Fits(a, room)
  {}

  function Flat(fields: seq<seq<byte>>): seq<byte> {
    if fields == [] then [] else fields[0] + Flat(fields[1..])
  }

  /** How many records at the front `append` accepts. */
  function Leading(records: seq<WalRecord>): (n: nat)
    ensures n <= |records|
  {
    if records == [] || !Appendable(records[0]) then 0 else 1 + Leading(records[1..])
  }

  lemma {:induction false} LeadingIs(records: seq<WalRecord>, n: nat)
    requires n <= |records| && (forall i :: 0 <= i < n ==> Appendable(records[i]))
    requires n == |records| || !Appendable(records[n])
    ensures Leading(records) == n
    decreases n
  {
    hide Appendable;
    if n > 0 {
      forall i | 0 <= i < n - 1 ensures Appendable(records[1..][i]) { assert records[1..][i] == records[i + 1]; }
      LeadingIs(records[1..], n - 1);
    }
  }

  // ----- The log file -----

  /** The records a batch tries to write. */
  function BatchBytes(crc: Checksum, records: seq<WalRecord>, isOpen: bool): seq<byte> {
    if isOpen then EncodeAll(crc, records[..Leading(records)]) else []
  }

  /** Every record of the batch is accepted and the disk takes them all. */
  predicate WholeBatch(crc: Checksum, records: seq<WalRecord>, isOpen: bool, room: nat) {
    isOpen && Leading(records) == |records| && |EncodeAll(crc, records)| <= room
  }

  /** The open file: its bytes, and how many of them an fsync has made safe. */
  class LogFile {
    var file: seq<byte>
    var synced: nat
    var isOpen: bool

    ghost predicate Valid()
      reads this
    {
      synced <= |file|
    }

    constructor ()
      ensures Valid() && file == [] && isOpen
    {
      file, synced, isOpen := [], 0, true;
    }

    /** A chain of `writeAll` calls, which ends at the first that fails. */
    method WriteFields(fields: seq<seq<byte>>, room: nat) returns (ok: bool)
      modifies this`file
      ensures file == old(file) + Fits(Flat(fields), room) && ok == (|Flat(fields)| <= room)
    {
      hide Fits;
      var left: nat, i := room, 0;
      assert fields[0..] == fields;
      while i < |fields|
        invariant 0 <= i <= |fields| && left <= room
        invariant file + Fits(Flat(fields[i..]), left) == old(file) + Fits(Flat(fields), room)
        invariant room - |Flat(fields)| == left - |Flat(fields[i..])|
      {
        NextField(fields, i, left);
        hide Flat;
        if |fields[i]| > left {
          file := file + fields[i][..left];
          return false;
        }
        assert file + (fields[i] + Fits(Flat(fields[i + 1..]), left - |fields[i]|))
               == file + fields[i] + Fits(Flat(fields[i + 1..]), left - |fields[i]|);
        file := file + fields[i];
        left, i := left - |fields[i]|, i + 1;
      }
      NoFields(fields, left);
      return true;
    }

    /**
     `append`, when the disk takes `room` more bytes and `syncs` says whether fsync succeeds: the record is written up
     to where the disk is full, and only a whole record that is synced, when it has to be, is reported as written.
     */
    method Append(crc: Checksum, record: WalRecord, sync: bool, room: nat, syncs: bool) returns (status: Status)
      requires Valid()
      modifies this
      ensures Valid() && isOpen == old(isOpen)
      ensures file == old(file) + if isOpen && Appendable(record) then Fits(Encode(crc, record), room) else []
      ensures status == if !isOpen || record.key == [] then FailedPrecondition
                        else if !Appendable(record) then InvalidArgument
                        else if |Encode(crc, record)| <= room && (sync ==> syncs) then Ok else Internal
      ensures synced == if status == Ok && sync then |file| else old(synced)
    {
      hide LittleEndian;
      if !isOpen || record.key == [] { return FailedPrecondition; }
      if |record.key| >= U32_LIMIT || |record.value| >= U32_LIMIT { return InvalidArgument; }
      var checksumInput := [VERSION, record.operation, 0];
      checksumInput := checksumInput + U32(|record.key|) + U32(|record.value|);
      checksumInput := checksumInput + record.key + record.value;
      var fields := [U32(MAGIC), [VERSION], [record.operation], [0], U32(|record.key|), U32(|record.value|),
                     record.key, record.value, U32(crc(checksumInput))];
      FieldsAreEncoding(crc, record);
      var ok := WriteFields(fields, room);
      if !ok { return Internal; }
      if sync {
        if !syncs { return Internal; }
        synced := |file|;
      }
      return Ok;
    }

    /** `appendBatch`: one fsync covers the whole group, and the first record that fails ends it. */
    method AppendBatch(crc: Checksum, records: seq<WalRecord>, sync: bool, room: nat, syncs: bool) returns (status: Status)
      requires Valid()
      modifies this
      ensures Valid() && isOpen == old(isOpen)
      ensures file == old(file) + Fits(BatchBytes(crc, records, isOpen), room)
      ensures status == Ok <==> records != [] && WholeBatch(crc, records, isOpen, room) && (sync ==> syncs)
      ensures synced == if status == Ok && sync then |file| else old(synced)
    {
      hide BatchBytes, WholeBatch, Fits;
      if records == [] {
        NothingFits(crc, room, isOpen);
        return InvalidArgument;
      }
      status := AppendRecords(crc, records, room);
      if status == Ok && sync {
        if !syncs { return Internal; }
        synced := |file|;
      }
    }

    method AppendRecords(crc: Checksum, records: seq<WalRecord>, room: nat) returns (status: Status)
      requires Valid() && records != []
      modifies this
      ensures Valid() && isOpen == old(isOpen) && synced == old(synced)
      ensures file == old(file) + Fits(BatchBytes(crc, records, isOpen), room)
      ensures status == Ok <==> WholeBatch(crc, records, isOpen, room)
    {
      hide Encode, Fits, EncodeAll, BatchBytes, WholeBatch;
      var start := |file|;
      assert EncodeAll(crc, records[..0]) == [] by { NothingEncoded(crc, records); }
      for n := 0 to |records|
        invariant Valid() && isOpen == old(isOpen) && synced == old(synced) && (n > 0 ==> isOpen)
        invariant |EncodeAll(crc, records[..n])| <= room && file == old(file) + EncodeAll(crc, records[..n])
        invariant forall i :: 0 <= i < n ==> Appendable(records[i])
      {
        ghost var before := EncodeAll(crc, records[..n]);
        status := Append(crc, records[n], false, room - (|file| - start), true);
        ghost var added := if isOpen && Appendable(records[n]) then Fits(Encode(crc, records[n]), room - |before|) else [];
        assert file == old(file) + (before + added);
        BatchStep(crc, records, n, room, isOpen, added);
        if status != Ok { return; }
      }
      BatchDone(crc, records, room);
      return Ok;
    }

    method ReplayInto<S>(crc: Checksum, apply: Applier<S>, start: S) returns (status: Status, state: S)
      requires Valid() && isOpen
      modifies this
      ensures Valid() && isOpen
      ensures var r := Replay(crc, apply, start, old(file), 0);
              status == r.status && state == r.state && r.size <= |old(file)| && file == old(file)[..r.size]
    {
      hide Next;
      state := start;
      var at := 0;
      while true
        invariant 0 <= at <= |file| && file == old(file) && synced == old(synced)
        invariant Replay(crc, apply, state, file, at) == Replay(crc, apply, start, old(file), 0)
        decreases |file| - at
      {
        match Next(crc, file[at..])
        case EndOfLog =>
          assert file == old(file)[..|file|];
          return Ok, state;
        case Torn =>
          file := file[..at];
          synced := |file|;
          return Ok, state;
        case Corrupt(_) =>
          assert file == old(file)[..|file|];
          return Internal, state;
        case Found(record, size) =>
          match apply(state, record)
          case None =>
            assert file == old(file)[..|file|];
            return Internal, state;
          case Some(next) =>
            state, at := next, at + size;
      }
    }

    /** `truncate`; `truncates` and `syncs` say whether the calls succeed. */
    method Truncate(truncates: bool, syncs: bool) returns (status: Status)
      modifies this
      ensures isOpen == old(isOpen)
      ensures status == if !isOpen then FailedPrecondition else if truncates && syncs then Ok else Internal
      ensures if isOpen && truncates then file == [] && synced == 0 else file == old(file) && synced == old(synced)
    {
      if !isOpen { return FailedPrecondition; }
      if !truncates { return Internal; }
      file, synced := [], 0;
      if !syncs { return Internal; }
      return Ok;
    }
  }

  /** What is written of the fields from `i` on: the next one whole and then the others, or its beginning. */
  lemma NextField(fields: seq<seq<byte>>, i: nat, left: nat)
    requires i < |fields|
    ensures |Flat(fields[i..])| == |fields[i]| + |Flat(fields[i + 1..])|
    ensures Fits(Flat(fields[i..]), left)
            == if |fields[i]| <= left then fields[i] + Fits(Flat(fields[i + 1..]), left - |fields[i]|) else fields[i][..left]
  {
    assert fields[i..][1..] == fields[i + 1..];
    FitsBoth(fields[i], Flat(fields[i + 1..]), left);
  }

  lemma NoFields(fields: seq<seq<byte>>, left: nat)
    ensures Flat(fields[|fields|..]) == [] && Fits(Flat(fields[|fields|..]), left) == []
  {}

  lemma FieldsAreEncoding(crc: Checksum, r: WalRecord)
    ensures var input := [VERSION, r.operation, 0] + U32(|r.key|) + U32(|r.value|) + (r.key + r.value);
            var fields := [U32(MAGIC), [VERSION], [r.operation], [0], U32(|r.key|), U32(|r.value|), r.key, r.value, U32(crc(input))];
            input == Body(r) && Flat(fields) == Encode(crc, r)
  {
    hide LittleEndian;
    var input := [VERSION, r.operation, 0] + U32(|r.key|) + U32(|r.value|) + (r.key + r.value);
    assert input == Body(r);
    var last := [r.key, r.value, U32(crc(input))];
    var middle := [[0 as byte], U32(|r.key|), U32(|r.value|)];
    var first := [U32(MAGIC), [VERSION], [r.operation]];
    FlatThree(r.key, r.value, U32(crc(input)), []);
    FlatThree([0], U32(|r.key|), U32(|r.value|), last);
    FlatThree(U32(MAGIC), [VERSION], [r.operation], middle + last);
    assert last + [] == last;
    assert first + (middle + last)
           == [U32(MAGIC), [VERSION], [r.operation], [0], U32(|r.key|), U32(|r.value|), r.key, r.value, U32(crc(input))];
    assert [VERSION] + [r.operation] + [0] == [VERSION, r.operation, 0];
    assert Flat(first + (middle + last)) == Encode(crc, r);
  }

  lemma FlatThree(a: seq<byte>, b: seq<byte>, c: seq<byte>, more: seq<seq<byte>>)
    ensures Flat([a, b, c] + more) == a + b + c + Flat(more)
  {
    var all := [a, b, c] + more;
    assert all[1..] == [b, c] + more && all[1..][1..] == [c] + more && all[1..][1..][1..] == more;
    assert Flat([c] + more) == c + Flat(more);
    assert Flat([b, c] + more) == b + Flat([c] + more);
  }

  lemma NothingFits(crc: Checksum, room: nat, isOpen: bool)
    ensures Fits(BatchBytes(crc, [], isOpen), room) == []
  {}

  lemma NothingEncoded(crc: Checksum, records: seq<WalRecord>)
    ensures EncodeAll(crc, records[..0]) == []
  {}

  lemma BatchDone(crc: Checksum, records: seq<WalRecord>, room: nat)
    requires (forall i :: 0 <= i < |records| ==> Appendable(records[i])) && |EncodeAll(crc, records[..|records|])| <= room
    ensures WholeBatch(crc, records, true, room)
    ensures Fits(BatchBytes(crc, records, true), room) == EncodeAll(crc, records[..|records|])
  {
    hide Appendable, EncodeAll;
    LeadingIs(records, |records|);
    assert records[..|records|] == records;
  }

  lemma EncodeOneMore(crc: Checksum, records: seq<WalRecord>, n: nat)
    requires n < |records|
    ensures EncodeAll(crc, records[..n + 1]) == EncodeAll(crc, records[..n]) + Encode(crc, records[n])
  {
    hide Encode;
    assert records[..n + 1] == records[..n] + [records[n]];
    EncodeAllConcat(crc, records[..n], [records[n]]);
    assert EncodeAll(crc, [records[n]]) == Encode(crc, records[n]);
  }

  /** One more record of a batch; one that is refused, or that the disk does not take whole, ends it. */
  lemma BatchStep(crc: Checksum, records: seq<WalRecord>, n: nat, room: nat, isOpen: bool, added: seq<byte>)
    requires n < |records| && (forall i :: 0 <= i < n ==> Appendable(records[i])) && (n > 0 ==> isOpen)
    requires |EncodeAll(crc, records[..n])| <= room
    requires added == if isOpen && Appendable(records[n]) then Fits(Encode(crc, records[n]), room - |EncodeAll(crc, records[..n])|)
                      else []
    ensures var before := EncodeAll(crc, records[..n]);
            if isOpen && Appendable(records[n]) && |Encode(crc, records[n])| <= room - |before|
            then EncodeAll(crc, records[..n + 1]) == before + added && |before + added| <= room
            else before + added == Fits(BatchBytes(crc, records, isOpen), room) && !WholeBatch(crc, records, isOpen, room)
  {
    hide Encode, Appendable, EncodeAll;
    EncodeOneMore(crc, records, n);
    NothingEncoded(crc, records);
    if isOpen {
      if Appendable(records[n]) {
        LeadingAtLeast(records, n + 1);
        var all := records[..Leading(records)];
        assert all[..n] == records[..n];
        BatchCut(crc, all, n, room);
        assert Leading(records) == |records| ==> all == records;
      } else {
        LeadingIs(records, n);
      }
    }
  }

  lemma BatchCut(crc: Checksum, records: seq<WalRecord>, n: nat, room: nat)
    requires n < |records| && |EncodeAll(crc, records[..n])| <= room
    ensures var before := EncodeAll(crc, records[..n]);
            |Encode(crc, records[n])| > room - |before| ==>
              && |EncodeAll(crc, records)| > room
              && Fits(EncodeAll(crc, records), room) == before + Fits(Encode(crc, records[n]), room - |before|)
  {
    hide Encode;
    var before, e, rest := EncodeAll(crc, records[..n]), Encode(crc, records[n]), EncodeAll(crc, records[n + 1..]);
    assert records == records[..n + 1] + records[n + 1..];
    EncodeAllConcat(crc, records[..n + 1], records[n + 1..]);
    EncodeOneMore(crc, records, n);
    assert EncodeAll(crc, records) == before + (e + rest);
  }

  lemma {:induction false} LeadingAtLeast(records: seq<WalRecord>, n: nat)
    requires n <= |records| && (forall i :: 0 <= i < n ==> Appendable(records[i]))
    ensures Leading(records) >= n
    decreases n
  {
    hide Appendable;
    if n > 0 {
      forall i | 0 <= i < n - 1 ensures Appendable(records[1..][i]) { assert records[1..][i] == records[i + 1]; }
      LeadingAtLeast(records[1..], n - 1);
    }
  }
}
