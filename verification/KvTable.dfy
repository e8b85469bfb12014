/** How log records change the table of the local key-value engine, and the batch record. */
module KvTable {
  import opened Bytes
  import opened Common
  import opened Wal
  import opened Snapshot

  const MAX_BATCH_COUNT: nat := 100_000

  /** The text "__batch__". */
  const BATCH_KEY: seq<byte> := [95, 95, 98, 97, 116, 99, 104, 95, 95]

  // ----- Mutations -----

  /** A set or delete that `writeBatch` takes. */
  predicate IsMutation(m: WalRecord) {
    (m.operation == SET || m.operation == DELETE) && m.key != []
  }

  predicate AllMutations(ms: seq<WalRecord>) {
    forall i :: 0 <= i < |ms| ==> IsMutation(ms[i])
  }

  function Mutate(table: Table, m: WalRecord): Table {
    if m.operation == SET then table[m.key := m.value] else table - {m.key}
  }

  function MutateAll(table: Table, ms: seq<WalRecord>): Table
    decreases |ms|
  {
    if ms == [] then table else MutateAll(Mutate(table, ms[0]), ms[1..])
  }

  lemma {:induction false} MutateAllConcat(table: Table, a: seq<WalRecord>, b: seq<WalRecord>)
    ensures MutateAll(table, a + b) == MutateAll(MutateAll(table, a), b)
    decreases |a|
  {
    if a == [] {
      assert a + b == b;
    } else {
      assert (a + b)[1..] == a[1..] + b;
      MutateAllConcat(Mutate(table, a[0]), a[1..], b);
    }
  }

  /** `k` is the key of some mutation. */
  predicate Touches(ms: seq<WalRecord>, k: seq<byte>) {
    exists i :: 0 <= i < |ms| && ms[i].key == k
  }

  /** A key no mutation names keeps its binding; any other ends up the same whatever the table held before. */
  lemma {:induction false} LastWriterWins(t: Table, u: Table, ms: seq<WalRecord>, k: seq<byte>)
    ensures !Touches(ms, k) ==> (k in MutateAll(t, ms) <==> k in t)
    ensures !Touches(ms, k) && k in t ==> MutateAll(t, ms)[k] == t[k]
    ensures Touches(ms, k) ==> (k in MutateAll(t, ms) <==> k in MutateAll(u, ms))
    ensures Touches(ms, k) && k in MutateAll(t, ms) ==> MutateAll(t, ms)[k] == MutateAll(u, ms)[k]
    decreases |ms|
  {
    if ms != [] {
      var t', u' := Mutate(t, ms[0]), Mutate(u, ms[0]);
      LastWriterWins(t', u', ms[1..], k);
      LastWriterWins(u', t', ms[1..], k);
      if Touches(ms[1..], k) {
        var i :| 0 <= i < |ms[1..]| && ms[1..][i].key == k;
        assert ms[i + 1].key == k;
      } else if Touches(ms, k) {
        var i :| 0 <= i < |ms| && ms[i].key == k;
        assert i > 0 ==> ms[1..][i - 1].key == k;
      } else {
        assert ms[0].key != k;
      }
    }
  }

  /** The last mutation that names a key decides: a set binds it to its value, a delete unbinds it. */
  lemma {:induction false} LastMutationDecides(table: Table, ms: seq<WalRecord>, i: nat, k: seq<byte>)
    requires i < |ms| && ms[i].key == k && forall j :: i < j < |ms| ==> ms[j].key != k
    ensures ms[i].operation == SET ==> k in MutateAll(table, ms) && MutateAll(table, ms)[k] == ms[i].value
    ensures ms[i].operation != SET ==> k !in MutateAll(table, ms)
    decreases |ms|
  {
    var next := Mutate(table, ms[0]);
    if i > 0 {
      LastMutationDecides(next, ms[1..], i - 1, k);
    } else {
      assert !Touches(ms[1..], k);
      LastWriterWins(next, next, ms[1..], k);
    }
  }

  /** Applying a log to a table that already includes it changes nothing. */
  lemma MutateAllIdempotent(table: Table, ms: seq<WalRecord>)
    ensures MutateAll(MutateAll(table, ms), ms) == MutateAll(table, ms)
  {
    var once := MutateAll(table, ms);
    var twice := MutateAll(once, ms);
    forall k: seq<byte>
      ensures k in twice <==> k in once
      ensures k in twice && k in once ==> twice[k] == once[k]
    {
      LastWriterWins(once, table, ms, k);
      LastWriterWins(table, once, ms, k);
    }
  }

  // ----- The batch record -----

  function EncodeMutation(m: WalRecord): (r: seq<byte>)
    ensures |r| == 9 + |m.key| + |m.value|
  {
    [m.operation] + U32(|m.key|) + m.key + U32(|m.value|) + m.value
  }

  function EncodeMutations(ms: seq<WalRecord>): seq<byte> {
    if ms == [] then [] else EncodeMutation(ms[0]) + EncodeMutations(ms[1..])
  }

  function EncodeBatch(ms: seq<WalRecord>): seq<byte> {
    U32(|ms|) + EncodeMutations(ms)
  }

  /** A length-prefixed string at the front of `s`, and how many bytes it takes. */
  function ReadBytes(s: seq<byte>): (r: Option<seq<byte>>)
    ensures r.Some? ==> 4 + |r.value| <= |s|
  {
    if |s| < 4 || 4 + FromLittleEndian(s[..4]) > |s| then None
    else Some(s[4..4 + FromLittleEndian(s[..4])])
  }

  function ReadMutation(s: seq<byte>): (r: Option<WalRecord>)
    ensures r.Some? ==> 9 + |r.value.key| + |r.value.value| <= |s|
    ensures r.Some? ==> IsMutation(r.value)
  {
    if s == [] || (s[0] != SET && s[0] != DELETE) then None
    else
      match ReadBytes(s[1..])
      case None => None
      case Some(key) =>
        match ReadBytes(s[5 + |key|..])
        case None => None
        case Some(value) => if key == [] then None else Some(WalRecord(s[0], key, value))
  }

  /** `count` mutations; the bytes must end with them. */
  function ReadMutations(s: seq<byte>, count: nat): Option<seq<WalRecord>>
    decreases count
  {
    if count == 0 then (if s == [] then Some([]) else None)
    else
      match ReadMutation(s)
      case None => None
      case Some(m) =>
        match ReadMutations(s[9 + |m.key| + |m.value|..], count - 1)
        case None => None
        case Some(ms) => Some([m] + ms)
  }

  function DecodeBatch(s: seq<byte>): Option<seq<WalRecord>> {
    if |s| < 4 then None
    else
      var count := FromLittleEndian(s[..4]);
      if count == 0 || count > MAX_BATCH_COUNT then None else ReadMutations(s[4..], count)
  }

  lemma ReadEncodedBytes(value: seq<byte>, rest: seq<byte>)
    requires |value| < U32_LIMIT
    ensures ReadBytes(U32(|value|) + value + rest) == Some(value)
  {
    hide LittleEndian, FromLittleEndian;
    var s := U32(|value|) + value + rest;
    assert s[..4] == U32(|value|);
    U32RoundTrip(|value|);
    assert s[4..4 + |value|] == value;
  }

  lemma ReadEncodedMutation(m: WalRecord, rest: seq<byte>)
    requires IsMutation(m) && |m.key| < U32_LIMIT && |m.value| < U32_LIMIT
    ensures ReadMutation(EncodeMutation(m) + rest) == Some(m)
  {
    hide LittleEndian, FromLittleEndian, ReadBytes;
    var s := EncodeMutation(m) + rest;
    var tail := U32(|m.value|) + m.value + rest;
    assert s[1..] == U32(|m.key|) + m.key + tail;
    ReadEncodedBytes(m.key, tail);
    assert s[5 + |m.key|..] == U32(|m.value|) + m.value + rest;
    ReadEncodedBytes(m.value, rest);
  }

  lemma {:induction false} ReadEncodedMutations(ms: seq<WalRecord>)
    requires forall i :: 0 <= i < |ms| ==> IsMutation(ms[i]) && |ms[i].key| < U32_LIMIT && |ms[i].value| < U32_LIMIT
    ensures ReadMutations(EncodeMutations(ms), |ms|) == Some(ms)
  {
    hide EncodeMutation, ReadMutation;
    if ms != [] {
      var e, rest := EncodeMutation(ms[0]), EncodeMutations(ms[1..]);
      ReadEncodedMutation(ms[0], rest);
      assert (e + rest)[|e|..] == rest;
      ReadEncodedMutations(ms[1..]);
      assert ms == [ms[0]] + ms[1..];
    }
  }

  /** A batch decodes to the mutations it was made of exactly when it stays within the count that `apply` admits. */
  lemma DecodeInvertsEncode(ms: seq<WalRecord>)
    requires 0 < |ms| < U32_LIMIT
    requires forall i :: 0 <= i < |ms| ==> IsMutation(ms[i]) && |ms[i].key| < U32_LIMIT && |ms[i].value| < U32_LIMIT
    ensures DecodeBatch(EncodeBatch(ms)) == if |ms| <= MAX_BATCH_COUNT then Some(ms) else None
  {
    hide LittleEndian, FromLittleEndian, ReadMutations, EncodeMutations;
    var s := EncodeBatch(ms);
    assert s[..4] == U32(|ms|) && s[4..] == EncodeMutations(ms);
    U32RoundTrip(|ms|);
    ReadEncodedMutations(ms);
  }

  lemma ReadBytesShape(s: seq<byte>)
    requires ReadBytes(s).Some?
    ensures var b := ReadBytes(s).value; |b| < U32_LIMIT && U32(|b|) + b == s[..4 + |b|]
  {
    hide LittleEndian, FromLittleEndian, Radix;
    RadixValues();
    FromLittleEndianRoundTrip(s[..4]);
    assert s[..4 + |ReadBytes(s).value|] == s[..4] + ReadBytes(s).value;
  }

  predicate Encodable(m: WalRecord) {
    IsMutation(m) && |m.key| < U32_LIMIT && |m.value| < U32_LIMIT
  }

  lemma ReadMutationShape(s: seq<byte>)
    requires ReadMutation(s).Some?
    ensures var m := ReadMutation(s).value; Encodable(m) && EncodeMutation(m) == s[..9 + |m.key| + |m.value|]
  {
    hide LittleEndian, ReadBytes;
    var m := ReadMutation(s).value;
    ReadBytesShape(s[1..]);
    ReadBytesShape(s[5 + |m.key|..]);
    assert s[1..][..4 + |m.key|] == s[1..5 + |m.key|];
    assert s[5 + |m.key|..][..4 + |m.value|] == s[5 + |m.key|..9 + |m.key| + |m.value|];
    assert s[..9 + |m.key| + |m.value|] == [s[0]] + s[1..5 + |m.key|] + s[5 + |m.key|..9 + |m.key| + |m.value|];
  }

  lemma {:induction false} ReadMutationsShape(s: seq<byte>, count: nat)
    requires ReadMutations(s, count).Some?
    ensures var ms := ReadMutations(s, count).value;
            |ms| == count && s == EncodeMutations(ms) && forall i :: 0 <= i < |ms| ==> Encodable(ms[i])
    decreases count
  {
    hide ReadMutation, EncodeMutation, Encodable;
    if count > 0 {
      var m, ms := ReadMutation(s).value, ReadMutations(s, count).value;
      ReadMutationShape(s);
      var size := 9 + |m.key| + |m.value|;
      ReadMutationsShape(s[size..], count - 1);
      assert ms[1..] == ReadMutations(s[size..], count - 1).value;
      assert s == s[..size] + s[size..];
    }
  }

  /** A value decodes to a batch exactly when it is the encoding of that batch, which is neither empty nor too long. */
  lemma BatchDecodesIff(s: seq<byte>, ms: seq<WalRecord>)
    ensures DecodeBatch(s) == Some(ms)
            <==> 0 < |ms| <= MAX_BATCH_COUNT && s == EncodeBatch(ms) && forall i :: 0 <= i < |ms| ==> Encodable(ms[i])
  {
    if 0 < |ms| <= MAX_BATCH_COUNT && s == EncodeBatch(ms) && forall i :: 0 <= i < |ms| ==> Encodable(ms[i]) {
      DecodeInvertsEncode(ms);
    }
    if DecodeBatch(s) == Some(ms) {
      hide LittleEndian, FromLittleEndian, ReadMutations, EncodeMutations;
      ReadMutationsShape(s[4..], FromLittleEndian(s[..4]));
      FromLittleEndianRoundTrip(s[..4]);
      assert s == s[..4] + s[4..];
    }
  }

  // ----- Records -----

  /** The mutations a record stands for, or None when `apply` reports an error. */
  function Effect(r: WalRecord): Option<seq<WalRecord>> {
    if r.operation == SET || r.operation == DELETE then Some([r])
    else if r.operation == BATCH && r.key == BATCH_KEY then DecodeBatch(r.value)
    else None
  }

  /** `apply`: all of the record or nothing. */
  function Apply(table: Table, r: WalRecord): Option<Table> {
    match Effect(r)
    case None => None
    case Some(ms) => Some(MutateAll(table, ms))
  }

  /** What a client may log and be sure to read back: all of it can be checked before the call. */
  predicate Durable(r: WalRecord) {
    Appendable(r) && Bounded(r) && Effect(r).Some?
  }

  predicate AllDurable(rs: seq<WalRecord>) {
    forall i :: 0 <= i < |rs| ==> Durable(rs[i])
  }

  /** How many bytes the record of a batch takes. */
  function BatchSize(ms: seq<WalRecord>): nat {
    if ms == [] then 4 else 9 + |ms[0].key| + |ms[0].value| + BatchSize(ms[1..])
  }

  function BatchRecord(ms: seq<WalRecord>): WalRecord {
    WalRecord(BATCH, BATCH_KEY, EncodeBatch(ms))
  }

  lemma {:induction false} MutationsSize(ms: seq<WalRecord>)
    ensures 4 + |EncodeMutations(ms)| == BatchSize(ms)
    decreases |ms|
  {
    hide EncodeMutation;
    if ms != [] { MutationsSize(ms[1..]); }
  }

  /** A batch that `writeBatch` takes can be read back exactly when it has at most 100000 mutations and 64 MiB. */
  lemma BatchDurableIff(ms: seq<WalRecord>)
    requires 0 < |ms| < U32_LIMIT && AllMutations(ms) && AllBounded(ms)
    ensures Durable(BatchRecord(ms)) <==> |ms| <= MAX_BATCH_COUNT && BatchSize(ms) <= MAX_VALUE_SIZE
  {
    hide DecodeBatch, EncodeBatch, BatchSize, AllMutations, AllBounded;
    EncodedSize(ms);
    TakenDecodes(ms);
  }

  lemma EncodedSize(ms: seq<WalRecord>)
    ensures |EncodeBatch(ms)| == BatchSize(ms) && (ms != [] ==> BatchSize(ms) > 4)
  {
    hide EncodeMutations, LittleEndian;
    MutationsSize(ms);
  }

  lemma TakenDecodes(ms: seq<WalRecord>)
    requires 0 < |ms| < U32_LIMIT && AllMutations(ms) && AllBounded(ms)
    ensures DecodeBatch(EncodeBatch(ms)).Some? <==> |ms| <= MAX_BATCH_COUNT
  {
    hide DecodeBatch, EncodeBatch;
    assert forall i :: 0 <= i < |ms| ==> Bounded(ms[i]) && IsMutation(ms[i]);
    DecodeInvertsEncode(ms);
  }

  /** The mutations of a log, in order. */
  function Effects(rs: seq<WalRecord>): seq<WalRecord>
    requires AllDurable(rs)
  {
    if rs == [] then [] else Effect(rs[0]).value + Effects(rs[1..])
  }

  lemma {:induction false} EffectsConcat(a: seq<WalRecord>, b: seq<WalRecord>)
    requires AllDurable(a) && AllDurable(b)
    ensures AllDurable(a + b)
    ensures Effects(a + b) == Effects(a) + Effects(b)
  {
    hide Effect;
    if a == [] {
      assert a + b == b;
    } else {
      assert (a + b)[1..] == a[1..] + b;
      EffectsConcat(a[1..], b);
    }
  }

  /** The table a log leads to. */
  function After(table: Table, rs: seq<WalRecord>): Table
    requires AllDurable(rs)
  {
    MutateAll(table, Effects(rs))
  }

  lemma AfterConcat(table: Table, a: seq<WalRecord>, b: seq<WalRecord>)
    requires AllDurable(a) && AllDurable(b)
    ensures AllDurable(a + b)
    ensures After(table, a + b) == After(After(table, a), b)
  {
    EffectsConcat(a, b);
    MutateAllConcat(table, Effects(a), Effects(b));
  }

  /** The record sets or deletes the key, alone or in a batch. */
  predicate Names(r: WalRecord, k: seq<byte>) {
    if r.operation == BATCH then DecodeBatch(r.value).Some? && exists m :: m in DecodeBatch(r.value).value && m.key == k
    else r.key == k
  }

  predicate NoneNames(rs: seq<WalRecord>, k: seq<byte>) {
    forall j :: 0 <= j < |rs| ==> !Names(rs[j], k)
  }

  lemma {:induction false} UnnamedStays(table: Table, rs: seq<WalRecord>, k: seq<byte>)
    requires AllDurable(rs) && NoneNames(rs, k)
    ensures k in After(table, rs) <==> k in table
    ensures k in table ==> After(table, rs)[k] == table[k]
    decreases |rs|
  {
    hide DecodeBatch, MutateAll;
    if rs != [] {
      var ms := Effect(rs[0]).value;
      var next := MutateAll(table, ms);
      AfterFirst(table, rs);
      assert !Names(rs[0], k);
      assert !Touches(ms, k);
      LastWriterWins(table, table, ms, k);
      UnnamedStays(next, rs[1..], k);
    } else {
      NoRecords(table);
    }
  }

  lemma NoRecords(table: Table)
    ensures After(table, []) == table
  {
    assert Effects([]) == [];
  }

  lemma AfterFirst(table: Table, rs: seq<WalRecord>)
    requires AllDurable(rs) && rs != []
    ensures After(table, rs) == After(MutateAll(table, Effect(rs[0]).value), rs[1..])
  {
    hide Effect;
    MutateAllConcat(table, Effect(rs[0]).value, Effects(rs[1..]));
  }

  /** A log around one of its records. */
  lemma AfterAt(table: Table, rs: seq<WalRecord>, n: nat)
    requires AllDurable(rs) && n < |rs|
    ensures After(table, rs) == After(MutateAll(After(table, rs[..n]), Effect(rs[n]).value), rs[n + 1..])
  {
    hide Durable, After;
    assert rs == rs[..n] + rs[n..];
    AfterConcat(table, rs[..n], rs[n..]);
    AfterFirst(After(table, rs[..n]), rs[n..]);
    assert rs[n..][1..] == rs[n + 1..];
  }

  /**
   In the table of a log, the last record that names a key decides: a set binds the key to its value, a delete unbinds
   it, and of a batch the last of its mutations that names the key.
   */
  lemma LastRecordDecides(table: Table, rs: seq<WalRecord>, n: nat, k: seq<byte>)
    requires AllDurable(rs) && n < |rs| && forall j :: n < j < |rs| ==> !Names(rs[j], k)
    ensures rs[n].operation == SET && rs[n].key == k ==> k in After(table, rs) && After(table, rs)[k] == rs[n].value
    ensures rs[n].operation == DELETE && rs[n].key == k ==> k !in After(table, rs)
  {
    hide Durable, After, MutateAll, Names;
    AfterAt(table, rs, n);
    LaterUnnamed(rs, n, k);
    var before := After(table, rs[..n]);
    DurableHasEffect(rs[n]) by { assert Durable(rs[n]); }
    UnnamedStays(MutateAll(before, Effect(rs[n]).value), rs[n + 1..], k);
    if rs[n].operation != BATCH && rs[n].key == k && (rs[n].operation == SET || rs[n].operation == DELETE) {
      LastMutationDecides(before, [rs[n]], 0, k);
    }
  }

  lemma DurableHasEffect(r: WalRecord)
    requires Durable(r)
    ensures Effect(r).Some?
  {
    hide Effect;
  }

  lemma LaterUnnamed(rs: seq<WalRecord>, n: nat, k: seq<byte>)
    requires n < |rs| && forall j :: n < j < |rs| ==> !Names(rs[j], k)
    ensures NoneNames(rs[n + 1..], k)
  {
    hide Durable, Names;
    var later := rs[n + 1..];
    forall j | 0 <= j < |later| ensures !Names(later[j], k) { assert later[j] == rs[n + 1 + j]; }
  }

  lemma LastInBatchDecides(table: Table, rs: seq<WalRecord>, n: nat, ms: seq<WalRecord>, i: nat)
    requires AllDurable(rs) && n < |rs| && rs[n] == BatchRecord(ms) && i < |ms|
    requires 0 < |ms| < U32_LIMIT && AllMutations(ms) && AllBounded(ms)
    requires forall j :: i < j < |ms| ==> ms[j].key != ms[i].key
    requires forall j :: n < j < |rs| ==> !Names(rs[j], ms[i].key)
    ensures var k := ms[i].key;
            if ms[i].operation == SET then k in After(table, rs) && After(table, rs)[k] == ms[i].value else k !in After(table, rs)
  {
    hide After, MutateAll, Names, Durable, DecodeBatch, EncodeBatch;
    AfterAt(table, rs, n);
    LaterUnnamed(rs, n, ms[i].key);
    var before := After(table, rs[..n]);
    BatchEffect(ms) by { assert Durable(rs[n]); }
    UnnamedStays(MutateAll(before, ms), rs[n + 1..], ms[i].key);
    LastMutationDecides(before, ms, i, ms[i].key);
  }

  lemma BatchEffect(ms: seq<WalRecord>)
    requires 0 < |ms| < U32_LIMIT && AllMutations(ms) && AllBounded(ms) && Durable(BatchRecord(ms))
    ensures Effect(BatchRecord(ms)) == Some(ms)
  {
    hide DecodeBatch, EncodeBatch;
    assert forall i :: 0 <= i < |ms| ==> Bounded(ms[i]) && IsMutation(ms[i]);
    DecodeInvertsEncode(ms);
  }

  lemma AfterIdempotent(table: Table, rs: seq<WalRecord>)
    requires AllDurable(rs)
    ensures After(After(table, rs), rs) == After(table, rs)
  {
    MutateAllIdempotent(table, Effects(rs));
  }

  /** Durable records replay without error, to the table their mutations lead to. */
  lemma {:induction false} DurableApplies(table: Table, rs: seq<WalRecord>)
    requires AllDurable(rs)
    ensures AllBounded(rs)
    ensures ApplyAll(Apply, table, rs) == Some(After(table, rs))
    decreases |rs|
  {
    hide Effect;
    if rs != [] {
      MutateAllConcat(table, Effect(rs[0]).value, Effects(rs[1..]));
      DurableApplies(MutateAll(table, Effect(rs[0]).value), rs[1..]);
    }
  }

  /** A log of appended records opens if and only if every record is durable. */
  lemma OpensIffDurable(crc: Checksum, table: Table, rs: seq<WalRecord>)
    requires forall i :: 0 <= i < |rs| ==> Appendable(rs[i])
    ensures Replay(crc, Apply, table, EncodeAll(crc, rs), 0).status == Ok <==> AllDurable(rs)
  {
    hide Effect, EncodeAll, Replay;
    ReplaySucceedsIff(crc, Apply, table, rs);
    if AllDurable(rs) { DurableApplies(table, rs); }
    if AllBounded(rs) && ApplyAll(Apply, table, rs).Some? { AppliedHasEffect(table, rs); }
  }

  lemma {:induction false} AppliedHasEffect(table: Table, rs: seq<WalRecord>)
    requires ApplyAll(Apply, table, rs).Some?
    ensures forall i :: 0 <= i < |rs| ==> Effect(rs[i]).Some?
    decreases |rs|
  {
    hide Effect;
    if rs != [] {
      AppliedHasEffect(Apply(table, rs[0]).value, rs[1..]);
      forall i | 0 <= i < |rs| ensures Effect(rs[i]).Some? {
        if i > 0 { assert rs[i] == rs[1..][i - 1]; }
      }
    }
  }

  // ----- The loops of the source -----

  method EncodeBatchLoop(ms: seq<WalRecord>) returns (status: Status, value: seq<byte>)
    ensures status == Ok <==> 0 < |ms| < U32_LIMIT && AllMutations(ms) && AllBounded(ms)
    ensures status == Ok ==> value == EncodeBatch(ms)
    ensures status != Ok ==> status == InvalidArgument
  {
    hide LittleEndian, EncodeMutation;
    value := [];
    if ms == [] || |ms| >= U32_LIMIT { return InvalidArgument, []; }
    value := U32(|ms|);
    for i := 0 to |ms|
      invariant value + EncodeMutations(ms[i..]) == EncodeBatch(ms)
      invariant AllMutations(ms[..i]) && AllBounded(ms[..i])
    {
      var m := ms[i];
      if (m.operation != SET && m.operation != DELETE) || m.key == [] ||
         |m.key| > MAX_KEY_SIZE || |m.value| > MAX_VALUE_SIZE {
        return InvalidArgument, [];
      }
      assert ms[i..][1..] == ms[i + 1..];
      assert ms[..i + 1] == ms[..i] + [m];
      value := value + EncodeMutation(m);
    }
    assert ms[..|ms|] == ms;
    status := Ok;
  }

  method DecodeBatchLoop(value: seq<byte>) returns (r: Option<seq<WalRecord>>)
    ensures r == DecodeBatch(value)
  {
    hide FromLittleEndian, ReadMutation;
    if |value| < 4 { return None; }
    var count := FromLittleEndian(value[..4]);
    if count == 0 || count > MAX_BATCH_COUNT { return None; }
    var offset := 4;
    var mutations: seq<WalRecord> := [];
    ghost var all := ReadMutations(value[4..], count);
    if all.Some? { assert mutations + all.value == all.value; }
    for i := 0 to count
      invariant 4 <= offset <= |value|
      invariant ReadMutations(value[4..], count)
                == match ReadMutations(value[offset..], count - i)
                   case None => None
                   case Some(more) => Some(mutations + more)
    {
      match ReadMutation(value[offset..])
      case None => return None;
      case Some(m) =>
        var size := 9 + |m.key| + |m.value|;
        assert value[offset..][size..] == value[offset + size..];
        ghost var rest := ReadMutations(value[offset + size..], count - i - 1);
        if rest.Some? { assert mutations + ([m] + rest.value) == (mutations + [m]) + rest.value; }
        mutations := mutations + [m];
        offset := offset + size;
    }
    assert mutations + [] == mutations;
    r := if offset == |value| then Some(mutations) else None;
  }

  method ApplyLoop(table: Table, r: WalRecord) returns (result: Option<Table>)
    ensures result == Apply(table, r)
  {
    hide DecodeBatch;
    if r.operation == SET {
      assert MutateAll(table, [r]) == Mutate(table, r);
      return Some(table[r.key := r.value]);
    }
    if r.operation == DELETE {
      assert MutateAll(table, [r]) == Mutate(table, r);
      return Some(table - {r.key});
    }
    if r.operation != BATCH || r.key != BATCH_KEY { return None; }
    var decoded := DecodeBatchLoop(r.value);
    if decoded.None? { return None; }
    var ms := decoded.value;
    var data := table;
    for i := 0 to |ms|
      invariant MutateAll(data, ms[i..]) == MutateAll(table, ms)
    {
      assert ms[i..][1..] == ms[i + 1..];
      data := if ms[i].operation == SET then data[ms[i].key := ms[i].value] else data - {ms[i].key};
    }
    assert ms[|ms|..] == [];
    result := Some(data);
  }
}
