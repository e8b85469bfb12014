/** The snapshot file: the whole map, checksummed, published by an atomic rename. */
module Snapshot {
  import opened Bytes
  import opened Common
  import opened Wal
  import Crc32

  type Entry = (seq<byte>, seq<byte>)
  type Table = map<seq<byte>, seq<byte>>

  const SNAPSHOT_MAGIC: nat := 0x4c56_5332
  const MAX_ENTRIES: nat := 10_000_000

  // ----- The table and its listings -----

  function Insert(table: Table, e: Entry): Table {
    table[e.0 := e.1]
  }

  function InsertAll(table: Table, es: seq<Entry>): Table
    decreases |es|
  {
    if es == [] then table else InsertAll(Insert(table, es[0]), es[1..])
  }

  /** `es` lists the table, each key once, in any order: what iterating a hash map yields. */
  ghost predicate Lists(es: seq<Entry>, table: Table) {
    && (forall i, j :: 0 <= i < j < |es| ==> es[i].0 != es[j].0)
    && (forall i :: 0 <= i < |es| ==> es[i].0 in table && table[es[i].0] == es[i].1)
    && (forall k :: k in table ==> exists i :: 0 <= i < |es| && es[i].0 == k)
  }

  lemma {:induction false} InsertAllLookup(table: Table, es: seq<Entry>, k: seq<byte>)
    requires forall i, j :: 0 <= i < j < |es| ==> es[i].0 != es[j].0
    ensures k in InsertAll(table, es) <==> k in table || exists i :: 0 <= i < |es| && es[i].0 == k
    ensures forall i :: 0 <= i < |es| && es[i].0 == k ==> k in InsertAll(table, es) && InsertAll(table, es)[k] == es[i].1
    ensures (forall i :: 0 <= i < |es| ==> es[i].0 != k) && k in table ==>
              k in InsertAll(table, es) && InsertAll(table, es)[k] == table[k]
    decreases |es|
  {
    if es != [] {
      InsertAllLookup(Insert(table, es[0]), es[1..], k);
      assert es == [es[0]] + es[1..];
      if exists i :: 0 <= i < |es| && es[i].0 == k {
        var i :| 0 <= i < |es| && es[i].0 == k;
        if i > 0 { assert es[1..][i - 1].0 == k; }
      }
    }
  }

  lemma ListingRebuilds(es: seq<Entry>, table: Table)
    requires Lists(es, table)
    ensures InsertAll(map[], es) == table
  {
    var built := InsertAll(map[], es);
    forall k: seq<byte>
      ensures k in built <==> k in table
      ensures k in built && k in table ==> built[k] == table[k]
    {
      InsertAllLookup(map[], es, k);
    }
  }

  // ----- Format -----

  predicate Storable(e: Entry) {
    |e.0| <= MAX_KEY_SIZE && |e.1| <= MAX_VALUE_SIZE
  }

  predicate AllStorable(es: seq<Entry>) {
    forall i :: 0 <= i < |es| ==> Storable(es[i])
  }

  function EncodeEntry(e: Entry): (r: seq<byte>)
    ensures |r| == 8 + |e.0| + |e.1|
  {
    U32(|e.0|) + U32(|e.1|) + e.0 + e.1
  }

  function EncodeEntries(es: seq<Entry>): seq<byte> {
    if es == [] then [] else EncodeEntry(es[0]) + EncodeEntries(es[1..])
  }

  function Payload(es: seq<Entry>): seq<byte> {
    U64(|es|) + EncodeEntries(es)
  }

  /** A file around a payload. */
  function Seal(crc: Checksum, payload: seq<byte>): seq<byte> {
    U32(SNAPSHOT_MAGIC) + payload + U32(crc(payload))
  }

  /** What `save` publishes, or None when an entry is too large. */
  function Save(crc: Checksum, es: seq<Entry>): Option<seq<byte>> {
    if AllStorable(es) then Some(Seal(crc, Payload(es))) else None
  }

  /** `count` entries read from the front of `s`; the bytes must end with them. */
  function ReadEntries(s: seq<byte>, count: nat, table: Table): Option<Table>
    decreases count
  {
    if count == 0 then (if s == [] then Some(table) else None)
    else
      match ReadEntry(s)
      case None => None
      case Some((e, size)) => ReadEntries(s[size..], count - 1, Insert(table, e))
  }

  function ReadEntry(s: seq<byte>): (r: Option<(Entry, nat)>)
    ensures r.Some? ==> 8 <= r.value.1 <= |s|
  {
    if |s| < 8 then None
    else
      var keySize := FromLittleEndian(s[..4]);
      var valueSize := FromLittleEndian(s[4..8]);
      var end := 8 + keySize + valueSize;
      if keySize > MAX_KEY_SIZE || valueSize > MAX_VALUE_SIZE || |s| < end then None
      else Some(((s[8..8 + keySize], s[8 + keySize..end]), end))
  }

  /** What `load` reads from an existing file; None stands for every corruption status. */
  function Load(crc: Checksum, file: seq<byte>): Option<Table> {
    if |file| < 4 || FromLittleEndian(file[..4]) != SNAPSHOT_MAGIC then None
    else if |file| < 16 then None
    else
      var payload := file[4..|file| - 4];
      if U32(crc(payload)) != file[|file| - 4..] then None
      else if FromLittleEndian(payload[..8]) > MAX_ENTRIES then None
      else ReadEntries(payload[8..], FromLittleEndian(payload[..8]), map[])
  }

  // ----- Load inverts save -----

  lemma ReadEncodedEntry(e: Entry, rest: seq<byte>)
    requires Storable(e)
    ensures ReadEntry(EncodeEntry(e) + rest) == Some((e, |EncodeEntry(e)|))
  {
    hide LittleEndian, FromLittleEndian;
    var s := EncodeEntry(e) + rest;
    assert s[..4] == U32(|e.0|);
    assert s[4..8] == U32(|e.1|);
    assert s[8..8 + |e.0|] == e.0;
    assert s[8 + |e.0|..8 + |e.0| + |e.1|] == e.1;
    U32RoundTrip(|e.0|);
    U32RoundTrip(|e.1|);
  }

  lemma {:induction false} ReadEncodedEntries(es: seq<Entry>, table: Table)
    requires AllStorable(es)
    ensures ReadEntries(EncodeEntries(es), |es|, table) == Some(InsertAll(table, es))
    decreases |es|
  {
    hide EncodeEntry, ReadEntry;
    if es != [] {
      var e, rest := EncodeEntry(es[0]), EncodeEntries(es[1..]);
      ReadEncodedEntry(es[0], rest);
      assert (e + rest)[|e|..] == rest;
      ReadEncodedEntries(es[1..], Insert(table, es[0]));
    }
  }

  /** How a sealed payload is taken apart. */
  lemma LoadSealed(crc: Checksum, payload: seq<byte>, check: seq<byte>)
    requires |payload| >= 8 && |check| == 4
    ensures var count := FromLittleEndian(payload[..8]);
            Load(crc, U32(SNAPSHOT_MAGIC) + payload + check)
            == if U32(crc(payload)) != check || count > MAX_ENTRIES then None
               else ReadEntries(payload[8..], count, map[])
  {
    hide LittleEndian, FromLittleEndian, ReadEntries;
    var file := U32(SNAPSHOT_MAGIC) + payload + check;
    assert file[..4] == U32(SNAPSHOT_MAGIC);
    assert file[4..|file| - 4] == payload;
    assert file[|file| - 4..] == check;
    U32RoundTrip(SNAPSHOT_MAGIC);
  }

  /** A saved table loads back, whatever order the hash map listed it in, exactly when it is small enough to load. */
  lemma LoadInvertsSave(crc: Checksum, es: seq<Entry>, table: Table)
    requires Lists(es, table) && AllStorable(es) && |es| < U64_LIMIT
    ensures Load(crc, Save(crc, es).value) == if |es| <= MAX_ENTRIES then Some(table) else None
  {
    hide LittleEndian, FromLittleEndian, ReadEntries, EncodeEntries, InsertAll, Load;
    var payload := Payload(es);
    assert payload[..8] == U64(|es|) && payload[8..] == EncodeEntries(es);
    RadixValues();
    LittleEndianRoundTrip(|es|, 8);
    LoadSealed(crc, payload, U32(crc(payload)));
    ReadEncodedEntries(es, map[]);
    ListingRebuilds(es, table);
  }

  lemma ReadEntryShape(s: seq<byte>)
    requires ReadEntry(s).Some?
    ensures var (e, size) := ReadEntry(s).value; Storable(e) && EncodeEntry(e) == s[..size]
  {
    hide LittleEndian, FromLittleEndian;
    var (e, size) := ReadEntry(s).value;
    FromLittleEndianRoundTrip(s[..4]);
    FromLittleEndianRoundTrip(s[4..8]);
    assert s[..size] == s[..4] + s[4..8] + e.0 + e.1;
  }

  /** The entries that were read, in their order in the file. */
  lemma {:induction false} ReadEntriesShape(s: seq<byte>, count: nat, table: Table) returns (es: seq<Entry>)
    requires ReadEntries(s, count, table).Some?
    ensures |es| == count && AllStorable(es) && s == EncodeEntries(es)
    ensures ReadEntries(s, count, table) == Some(InsertAll(table, es))
    decreases count
  {
    hide ReadEntry, EncodeEntry, Storable;
    if count == 0 {
      es := [];
    } else {
      var (e, size) := ReadEntry(s).value;
      ReadEntryShape(s);
      var rest := ReadEntriesShape(s[size..], count - 1, Insert(table, e));
      es := [e] + rest;
      assert es[1..] == rest && s == s[..size] + s[size..];
    }
  }

  /** The file is the sealed listing `es`, whose entries, inserted in order, give the table. */
  ghost predicate IsSnapshot(crc: Checksum, file: seq<byte>, table: Table, es: seq<Entry>) {
    |es| <= MAX_ENTRIES && AllStorable(es) && file == Seal(crc, Payload(es)) && table == InsertAll(map[], es)
  }

  /** A file loads exactly when it is a sealed listing of at most ten million storable entries. */
  lemma LoadsIff(crc: Checksum, file: seq<byte>, table: Table)
    ensures Load(crc, file) == Some(table) <==> exists es :: IsSnapshot(crc, file, table, es)
  {
    hide LittleEndian, FromLittleEndian, ReadEntries, EncodeEntries, InsertAll, Radix;
    if Load(crc, file) == Some(table) {
      var payload := file[4..|file| - 4];
      var es := ReadEntriesShape(payload[8..], FromLittleEndian(payload[..8]), map[]);
      FromLittleEndianRoundTrip(file[..4]);
      FromLittleEndianRoundTrip(payload[..8]);
      assert payload == payload[..8] + payload[8..];
      assert file == file[..4] + payload + file[|file| - 4..];
      assert IsSnapshot(crc, file, table, es);
    }
    if es :| IsSnapshot(crc, file, table, es) { SealedLoads(crc, es); }
  }

  lemma SealedLoads(crc: Checksum, es: seq<Entry>)
    requires |es| <= MAX_ENTRIES && AllStorable(es)
    ensures Load(crc, Seal(crc, Payload(es))) == Some(InsertAll(map[], es))
  {
    hide LittleEndian, FromLittleEndian, ReadEntries, EncodeEntries, InsertAll, Load, Radix;
    var payload := Payload(es);
    assert payload[..8] == U64(|es|) && payload[8..] == EncodeEntries(es);
    RadixValues();
    LittleEndianRoundTrip(|es|, 8);
    LoadSealed(crc, payload, U32(crc(payload)));
    ReadEncodedEntries(es, map[]);
  }

  /** Damage within four consecutive bytes of a sealed payload is always rejected. */
  lemma DamageRejected(prefix: seq<byte>, was: seq<byte>, now: seq<byte>, suffix: seq<byte>)
    requires |was| == |now| <= 4 && was != now
    requires |prefix + was + suffix| >= 8
    ensures Load(Crc32.Of, U32(SNAPSHOT_MAGIC) + (prefix + now + suffix) + U32(Crc32.Of(prefix + was + suffix))) == None
  {
    hide LittleEndian, FromLittleEndian, ReadEntries, Load, Crc32.Of;
    var payload, damaged := prefix + was + suffix, prefix + now + suffix;
    Crc32.FourByteBurstDetected(prefix, was, now, suffix);
    U32RoundTrip(Crc32.Of(payload));
    U32RoundTrip(Crc32.Of(damaged));
    LoadSealed(Crc32.Of, damaged, U32(Crc32.Of(payload)));
  }

  // ----- The loops of the source -----

  method SaveTo(crc: Checksum, es: seq<Entry>) returns (file: Option<seq<byte>>)
    ensures file == Save(crc, es)
  {
    hide LittleEndian, EncodeEntry;
    var body := U64(|es|);
    for i := 0 to |es|
      invariant body + EncodeEntries(es[i..]) == Payload(es)
      invariant AllStorable(es[..i])
    {
      if |es[i].0| > MAX_KEY_SIZE || |es[i].1| > MAX_VALUE_SIZE { return None; }
      assert es[i..][1..] == es[i + 1..];
      assert es[..i + 1] == es[..i] + [es[i]];
      body := body + EncodeEntry(es[i]);
    }
    assert es[..|es|] == es;
    assert body == Payload(es);
    file := Some(U32(SNAPSHOT_MAGIC) + body + U32(crc(body)));
  }

  method LoadFrom(crc: Checksum, file: seq<byte>) returns (table: Option<Table>)
    ensures table == Load(crc, file)
  {
    hide LittleEndian, FromLittleEndian, ReadEntry;
    if |file| < 4 || FromLittleEndian(file[..4]) != SNAPSHOT_MAGIC { return None; }
    if |file| < 16 { return None; }
    var payload := file[4..|file| - 4];
    if U32(crc(payload)) != file[|file| - 4..] { return None; }
    var count := FromLittleEndian(payload[..8]);
    if count > MAX_ENTRIES { return None; }
    var offset := 8;
    var data: Table := map[];
    for i := 0 to count
      invariant 8 <= offset <= |payload|
      invariant ReadEntries(payload[offset..], count - i, data) == ReadEntries(payload[8..], count, map[])
    {
      match ReadEntry(payload[offset..])
      case None => return None;
      case Some((e, size)) =>
        assert payload[offset..][size..] == payload[offset + size..];
        data := data[e.0 := e.1];
        offset := offset + size;
    }
    table := if offset == |payload| then Some(data) else None;
  }
}
