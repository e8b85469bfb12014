/** The outbox file: one checksummed record per event, and what `open` makes of it. */
module OutboxCodec {
  import opened Bytes
  import opened Common
  import opened Wal
  import Crc32

  const OUTBOX_MAGIC: nat := 0x4f42_5832
  const MAX_FIELD: nat := 16 * 1024 * 1024
  const MAX_RECORD: nat := 64 * 1024 * 1024

  datatype Event = Event(id: seq<byte>, topic: seq<byte>, key: seq<byte>, payload: seq<byte>, sequence: nat)

  // ----- Fields -----

  function EncodeField(field: seq<byte>): seq<byte> {
    U32(|field|) + field
  }

  function EncodeFields(fields: seq<seq<byte>>): seq<byte> {
    if fields == [] then [] else EncodeField(fields[0]) + EncodeFields(fields[1..])
  }

  function ReadField(s: seq<byte>): Option<(seq<byte>, seq<byte>)> {
    if |s| < 4 then None
    else
      var size := FromLittleEndian(s[..4]);
      if size > MAX_FIELD || 4 + size > |s| then None else Some((s[4..4 + size], s[4 + size..]))
  }

  function ReadFields(s: seq<byte>, count: nat): Option<(seq<seq<byte>>, seq<byte>)> {
    if count == 0 then Some(([], s))
    else
      match ReadField(s)
      case None => None
      case Some((field, rest)) =>
        match ReadFields(rest, count - 1)
        case None => None
        case Some((fields, tail)) => Some(([field] + fields, tail))
  }

  predicate Small(fields: seq<seq<byte>>) {
    forall i :: 0 <= i < |fields| ==> |fields[i]| <= MAX_FIELD
  }

  lemma ReadFieldOf(field: seq<byte>, tail: seq<byte>)
    requires |field| <= MAX_FIELD
    ensures ReadField(EncodeField(field) + tail) == Some((field, tail))
  {
    hide LittleEndian, FromLittleEndian;
    var s := EncodeField(field) + tail;
    U32RoundTrip(|field|);
    assert s[..4] == U32(|field|);
    assert s[4..4 + |field|] == field && s[4 + |field|..] == tail;
  }

  lemma {:induction false} ReadFieldsOf(fields: seq<seq<byte>>, tail: seq<byte>)
    requires Small(fields)
    ensures ReadFields(EncodeFields(fields) + tail, |fields|) == Some((fields, tail))
    decreases |fields|
  {
    hide ReadField, EncodeField;
    if fields == [] {
      assert EncodeFields(fields) + tail == tail;
    } else {
      var rest := EncodeFields(fields[1..]) + tail;
      assert EncodeFields(fields) + tail == EncodeField(fields[0]) + rest;
      ReadFieldOf(fields[0], rest);
      ReadFieldsOf(fields[1..], tail);
      assert fields == [fields[0]] + fields[1..];
    }
  }

  // ----- Events -----

  function Fields(e: Event): seq<seq<byte>> {
    [e.id, e.topic, e.key, e.payload]
  }

  function EncodeEvent(e: Event): seq<byte> {
    EncodeFields(Fields(e)) + U64(e.sequence)
  }

  function DecodeEvent(payload: seq<byte>): Option<Event> {
    match ReadFields(payload, 4)
    case None => None
    case Some((fields, rest)) =>
      if |fields| != 4 || |rest| != 8 || fields[1] == [] then None
      else Some(Event(fields[0], fields[1], fields[2], fields[3], FromLittleEndian(rest)))
  }

  /** What `append` takes and `writeRecord` writes. */
  predicate Writable(e: Event) {
    && e.topic != [] && e.sequence < U64_LIMIT
    && Small(Fields(e)) && |EncodeEvent(e)| <= MAX_RECORD
  }

  predicate AllWritable(es: seq<Event>) {
    forall i :: 0 <= i < |es| ==> Writable(es[i])
  }

  lemma DecodeInvertsEncode(e: Event)
    requires Writable(e)
    ensures DecodeEvent(EncodeEvent(e)) == Some(e)
  {
    hide LittleEndian, FromLittleEndian, ReadFields, EncodeFields, Radix;
    ReadFieldsOf(Fields(e), U64(e.sequence));
    RadixValues();
    LittleEndianRoundTrip(e.sequence, 8);
  }

  // ----- Records -----

  function Sealed(crc: Checksum, payload: seq<byte>, covered: seq<byte>): seq<byte> {
    U32(OUTBOX_MAGIC) + U32(|payload|) + payload + U32(crc(covered))
  }

  function Record(crc: Checksum, e: Event): seq<byte> {
    Sealed(crc, EncodeEvent(e), EncodeEvent(e))
  }

  function FileOf(crc: Checksum, es: seq<Event>): seq<byte> {
    if es == [] then [] else Record(crc, es[0]) + FileOf(crc, es[1..])
  }

  datatype Read = End | Damaged | Got(event: Event, rest: seq<byte>)

  function ReadRecord(crc: Checksum, s: seq<byte>): (r: Read)
    ensures r.Got? ==> |r.rest| < |s|
  {
    if s == [] then End
    else if |s| < 8 || FromLittleEndian(s[..4]) != OUTBOX_MAGIC then Damaged
    else
      var size := FromLittleEndian(s[4..8]);
      if size > MAX_RECORD || |s| < 8 + size + 4 || U32(crc(s[8..8 + size])) != s[8 + size..12 + size] then Damaged
      else
        match DecodeEvent(s[8..8 + size])
        case None => Damaged
        case Some(e) => Got(e, s[12 + size..])
  }

  /** The events of a file, or None when `open` reports corruption. */
  function OpenFile(crc: Checksum, file: seq<byte>): Option<seq<Event>>
    decreases |file|
  {
    match ReadRecord(crc, file)
    case End => Some([])
    case Damaged => None
    case Got(e, rest) =>
      match OpenFile(crc, rest)
      case None => None
      case Some(es) => Some([e] + es)
  }

  /** How a sealed payload is taken apart. */
  lemma ReadSealed(crc: Checksum, payload: seq<byte>, covered: seq<byte>, rest: seq<byte>)
    requires |payload| <= MAX_RECORD
    ensures ReadRecord(crc, Sealed(crc, payload, covered) + rest)
            == if U32(crc(payload)) != U32(crc(covered)) || DecodeEvent(payload).None? then Damaged
               else Got(DecodeEvent(payload).value, rest)
  {
    hide LittleEndian, FromLittleEndian, DecodeEvent;
    var s, n := Sealed(crc, payload, covered) + rest, |payload|;
    U32RoundTrip(OUTBOX_MAGIC);
    U32RoundTrip(n);
    assert s[..4] == U32(OUTBOX_MAGIC) && s[4..8] == U32(n);
    assert s[8..8 + n] == payload && s[8 + n..12 + n] == U32(crc(covered)) && s[12 + n..] == rest;
  }

  lemma ReadRecordOf(crc: Checksum, e: Event, rest: seq<byte>)
    requires Writable(e)
    ensures ReadRecord(crc, Record(crc, e) + rest) == Got(e, rest)
  {
    hide ReadRecord, Sealed, EncodeEvent, DecodeEvent;
    DecodeInvertsEncode(e);
    ReadSealed(crc, EncodeEvent(e), EncodeEvent(e), rest);
  }

  lemma {:induction false} OpenPrefix(crc: Checksum, es: seq<Event>, rest: seq<byte>)
    requires AllWritable(es)
    ensures OpenFile(crc, FileOf(crc, es) + rest)
            == match OpenFile(crc, rest) case None => None case Some(more) => Some(es + more)
    decreases |es|
  {
    hide ReadRecord, Record, Writable;
    if es == [] {
      assert FileOf(crc, es) + rest == rest;
      assert OpenFile(crc, rest).Some? ==> [] + OpenFile(crc, rest).value == OpenFile(crc, rest).value;
    } else {
      var tail := FileOf(crc, es[1..]) + rest;
      assert FileOf(crc, es) + rest == Record(crc, es[0]) + tail;
      ReadRecordOf(crc, es[0], tail);
      OpenPrefix(crc, es[1..], rest);
      assert OpenFile(crc, rest).Some? ==> [es[0]] + (es[1..] + OpenFile(crc, rest).value) == es + OpenFile(crc, rest).value;
    }
  }

  /** Opening what was written gives the events back, in order. */
  lemma OpenInvertsWrite(crc: Checksum, es: seq<Event>)
    requires AllWritable(es)
    ensures OpenFile(crc, FileOf(crc, es)) == Some(es)
  {
    hide FileOf;
    OpenPrefix(crc, es, []);
    assert FileOf(crc, es) + [] == FileOf(crc, es) && es + [] == es;
  }

  lemma TornIsCorrupt(crc: Checksum, e: Event, k: nat)
    requires Writable(e) && 0 < k < |Record(crc, e)|
    ensures OpenFile(crc, Record(crc, e)[..k]) == None
  {
    hide LittleEndian, FromLittleEndian, DecodeEvent, EncodeEvent;
    var s, n := Record(crc, e)[..k], |EncodeEvent(e)|;
    U32RoundTrip(OUTBOX_MAGIC);
    U32RoundTrip(n);
    if k >= 8 { assert s[..4] == U32(OUTBOX_MAGIC) && s[4..8] == U32(n); }
  }

  // ----- What opens was written -----

  lemma ReadFieldShape(s: seq<byte>)
    ensures ReadField(s).Some? ==>
              |ReadField(s).value.0| <= MAX_FIELD && s == EncodeField(ReadField(s).value.0) + ReadField(s).value.1
  {
    hide LittleEndian, FromLittleEndian;
    if ReadField(s).Some? {
      FromLittleEndianRoundTrip(s[..4]);
      assert s == s[..4] + (ReadField(s).value.0 + ReadField(s).value.1);
    }
  }

  lemma {:induction false} ReadFieldsShape(s: seq<byte>, count: nat)
    ensures var r := ReadFields(s, count);
            r.Some? ==> |r.value.0| == count && Small(r.value.0) && s == EncodeFields(r.value.0) + r.value.1
    decreases count
  {
    hide ReadField, EncodeField;
    if count > 0 && ReadFields(s, count).Some? {
      ReadFieldShape(s);
      var (field, rest) := ReadField(s).value;
      ReadFieldsShape(rest, count - 1);
      var (fields, tail) := ReadFields(rest, count - 1).value;
      assert ([field] + fields)[1..] == fields;
      assert s == EncodeField(field) + (EncodeFields(fields) + tail);
    } else if count == 0 {
      assert s == EncodeFields([]) + s;
    }
  }

  lemma DecodedIsEncoded(payload: seq<byte>)
    requires DecodeEvent(payload).Some? && |payload| <= MAX_RECORD
    ensures Writable(DecodeEvent(payload).value) && EncodeEvent(DecodeEvent(payload).value) == payload
  {
    hide LittleEndian, FromLittleEndian, ReadFields, EncodeFields, Radix;
    var e := DecodeEvent(payload).value;
    ReadFieldsShape(payload, 4);
    var (fields, rest) := ReadFields(payload, 4).value;
    assert fields == Fields(e);
    RadixValues();
    FromLittleEndianRoundTrip(rest);
  }

  lemma ReadIsRecord(crc: Checksum, s: seq<byte>)
    requires ReadRecord(crc, s).Got?
    ensures var r := ReadRecord(crc, s); Writable(r.event) && s == Record(crc, r.event) + r.rest
  {
    hide LittleEndian, FromLittleEndian, DecodeEvent, EncodeEvent, Writable;
    var r, size := ReadRecord(crc, s), FromLittleEndian(s[4..8]);
    DecodedIsEncoded(s[8..8 + size]);
    FromLittleEndianRoundTrip(s[..4]);
    FromLittleEndianRoundTrip(s[4..8]);
    assert s == s[..4] + s[4..8] + s[8..8 + size] + s[8 + size..12 + size] + s[12 + size..];
  }

  /** A file opens to some events exactly when it is what writing those events leaves. */
  lemma {:induction false} OpensIffWritten(crc: Checksum, file: seq<byte>, es: seq<Event>)
    ensures OpenFile(crc, file) == Some(es) <==> AllWritable(es) && file == FileOf(crc, es)
    decreases |file|
  {
    hide ReadRecord, Record, Writable;
    if AllWritable(es) && file == FileOf(crc, es) { OpenInvertsWrite(crc, es); }
    if OpenFile(crc, file) == Some(es) {
      NoRecord(crc, file);
      if es != [] {
        ReadIsRecord(crc, file);
        var r := ReadRecord(crc, file);
        assert es[1..] == OpenFile(crc, r.rest).value;
        OpensIffWritten(crc, r.rest, es[1..]);
      }
    }
  }

  lemma NoRecord(crc: Checksum, s: seq<byte>)
    ensures ReadRecord(crc, s).End? <==> s == []
  {}

  // ----- Cuts -----

  /** How many whole records lie before the cut. */
  function WholeEvents(crc: Checksum, es: seq<Event>, cut: nat): (n: nat)
    ensures n <= |es|
    decreases |es|
  {
    if es == [] || cut < |Record(crc, es[0])| then 0 else 1 + WholeEvents(crc, es[1..], cut - |Record(crc, es[0])|)
  }

  lemma {:induction false} CutShape(crc: Checksum, es: seq<Event>, cut: nat)
    requires cut <= |FileOf(crc, es)|
    ensures var n := WholeEvents(crc, es, cut);
            var size := |FileOf(crc, es[..n])|;
            && size <= cut
            && (n == |es| ==> cut == size)
            && (n < |es| ==> cut - size < |Record(crc, es[n])|)
            && FileOf(crc, es)[..cut]
               == FileOf(crc, es[..n]) + (if n < |es| then Record(crc, es[n])[..cut - size] else [])
    decreases |es|
  {
    hide Record;
    var n := WholeEvents(crc, es, cut);
    if es != [] && n > 0 {
      var e := Record(crc, es[0]);
      CutShape(crc, es[1..], cut - |e|);
      assert es[..n] == [es[0]] + es[1..][..n - 1];
      assert es[..n][1..] == es[1..][..n - 1];
      assert FileOf(crc, es)[..cut] == e + FileOf(crc, es[1..])[..cut - |e|];
    } else {
      assert es[..0] == [];
    }
  }

  /** A file cut anywhere opens exactly when the cut falls between two records, and then with the records before it. */
  lemma CutOpensIff(crc: Checksum, es: seq<Event>, cut: nat)
    requires AllWritable(es) && cut <= |FileOf(crc, es)|
    ensures var n := WholeEvents(crc, es, cut);
            OpenFile(crc, FileOf(crc, es)[..cut])
            == if cut == |FileOf(crc, es[..n])| then Some(es[..n]) else None
  {
    hide FileOf, Record, WholeEvents, OpenFile, Writable;
    CutShape(crc, es, cut);
    var n := WholeEvents(crc, es, cut);
    var whole := FileOf(crc, es[..n]);
    if cut == |whole| {
      assert FileOf(crc, es)[..cut] == whole;
      OpenInvertsWrite(crc, es[..n]);
    } else {
      TornIsCorrupt(crc, es[n], cut - |whole|);
      OpenPrefix(crc, es[..n], Record(crc, es[n])[..cut - |whole|]);
    }
  }

  /** Damage within four consecutive bytes of a record's payload makes `open` fail, whatever precedes and follows. */
  lemma DamageRejected(es: seq<Event>, prefix: seq<byte>, was: seq<byte>, now: seq<byte>, suffix: seq<byte>, rest: seq<byte>)
    requires AllWritable(es) && |was| == |now| <= 4 && was != now && |prefix + was + suffix| <= MAX_RECORD
    ensures OpenFile(Crc32.Of,
                     FileOf(Crc32.Of, es) + (Sealed(Crc32.Of, prefix + now + suffix, prefix + was + suffix) + rest)) == None
  {
    hide FileOf, Sealed, Crc32.Of, LittleEndian, FromLittleEndian, DecodeEvent, ReadRecord, Writable;
    var damaged, payload := prefix + now + suffix, prefix + was + suffix;
    Crc32.FourByteBurstDetected(prefix, was, now, suffix);
    U32RoundTrip(Crc32.Of(payload));
    U32RoundTrip(Crc32.Of(damaged));
    ReadSealed(Crc32.Of, damaged, payload, rest);
    OpenPrefix(Crc32.Of, es, Sealed(Crc32.Of, damaged, payload) + rest);
  }

  // ----- The loop of `open` -----

  method ReadAll(crc: Checksum, file: seq<byte>) returns (pending: Option<seq<Event>>)
    ensures pending == OpenFile(crc, file)
  {
    hide ReadRecord;
    var events: seq<Event>, rest := [], file;
    assert OpenFile(crc, file).Some? ==> [] + OpenFile(crc, file).value == OpenFile(crc, file).value;
    while true
      invariant OpenFile(crc, file)
                == match OpenFile(crc, rest) case None => None case Some(more) => Some(events + more)
      decreases |rest|
    {
      match ReadRecord(crc, rest)
      case End =>
        assert events + [] == events;
        return Some(events);
      case Damaged =>
        return None;
      case Got(e, tail) =>
        assert OpenFile(crc, tail).Some? ==> events + ([e] + OpenFile(crc, tail).value) == events + [e] + OpenFile(crc, tail).value;
        events, rest := events + [e], tail;
    }
  }
}
