/**
 Every run of the local key-value engine, with a crash at any byte of an append and between
 any two steps of a snapshot, and what the next open finds.
 */
module KvRuns {
  import opened Bytes
  import opened Common
  import opened Wal
  import opened Snapshot
  import opened KvTable

  const MAX_GROUP: nat := 64

  /** What survives the process: the published snapshot and the log, of which `synced` bytes are safe. */
  datatype Disk = Disk(snapshot: Option<seq<byte>>, wal: seq<byte>, synced: nat)

  datatype Request = Request(records: seq<WalRecord>, barrier: bool)

  /** The writer thread: between groups, `written` bytes into the append of a group, or past its fsync. */
  datatype Writer =
    | Idle
    | Appending(group: seq<Request>, written: nat)
    | Synced(group: seq<Request>)

  /** Who holds the operation gate: the clients, or a snapshot that is flushing, or one that has been published. */
  datatype Gate = Clients | Flushing | Published

  /**
   The engine and its disk. The fields from `base` on are history, not memory: the table of the
   snapshot, the records of the log, every record ever applied, and those submitted since the last open.
   */
  datatype State = State(
    disk: Disk, data: Table, queue: seq<Request>, writer: Writer, gate: Gate,
    base: Table, log: seq<WalRecord>, history: seq<WalRecord>, submitted: seq<WalRecord>, since: nat)

  datatype Event =
    | Submit(record: WalRecord)
    | TakeGroup(count: nat)
    | WriteBytes(count: nat)
    | SyncLog
    | Acknowledge
    | BeginSnapshot
    | PublishSnapshot(entries: seq<Entry>)
    | AbandonSnapshot
    | TruncateLog
    | FailTruncate
    | CrashAndOpen(cut: nat)

  function Fresh(): State {
    State(Disk(None, [], 0), map[], [], Idle, Clients, map[], [], [], [], 0)
  }

  function Records(requests: seq<Request>): seq<WalRecord> {
    if requests == [] then [] else requests[0].records + Records(requests[1..])
  }

  lemma {:induction false} RecordsConcat(a: seq<Request>, b: seq<Request>)
    ensures Records(a + b) == Records(a) + Records(b)
  {
    if a == [] {
      assert a + b == b;
    } else {
      assert (a + b)[1..] == a[1..] + b;
      RecordsConcat(a[1..], b);
    }
  }

  function InFlight(s: State): seq<WalRecord> {
    match s.writer
    case Idle => []
    case Appending(group, _) => Records(group)
    case Synced(group) => Records(group)
  }

  /** How many bytes of the group in flight the log holds. */
  function Written(crc: Checksum, s: State): nat {
    match s.writer
    case Idle => 0
    case Appending(_, written) => written
    case Synced(group) => |EncodeAll(crc, Records(group))|
  }

  /** The disk a crash leaves: everything synced and any part of what was written after. */
  function Crash(disk: Disk, cut: nat): Disk
    requires disk.synced <= cut <= |disk.wal|
  {
    disk.(wal := disk.wal[..cut], synced := cut)
  }

  function LoadBase(crc: Checksum, snapshot: Option<seq<byte>>): Option<Table> {
    match snapshot
    case None => Some(map[])
    case Some(file) => Load(crc, file)
  }

  /** `open`: the snapshot, then the log over it, which is truncated behind its last whole record. */
  function Open(crc: Checksum, disk: Disk): Option<(Table, Disk)> {
    match LoadBase(crc, disk.snapshot)
    case None => None
    case Some(base) =>
      var r := Replay(crc, Apply, base, disk.wal, 0);
      if r.status != Ok || r.size > |disk.wal| then None
      else Some((r.state, Disk(disk.snapshot, disk.wal[..r.size], r.size)))
  }

  // ----- Steps -----

  /** How many records in flight a crash at `cut` leaves whole. */
  function Survivors(crc: Checksum, s: State, cut: nat): (n: nat)
    ensures n <= |InFlight(s)|
  {
    if cut < |EncodeAll(crc, s.log)| then 0 else WholeRecords(crc, InFlight(s), cut - |EncodeAll(crc, s.log)|)
  }

  /** The writer stops collecting behind a barrier, and a group never exceeds 64 requests. */
  predicate CanTake(queue: seq<Request>, count: nat) {
    && 1 <= count <= |queue| && count <= MAX_GROUP
    && forall i :: 1 <= i < count - 1 ==> !queue[i].barrier
  }

  ghost predicate Enabled(crc: Checksum, s: State, e: Event) {
    match e
    case Submit(record) => s.gate == Clients && Durable(record)
    case TakeGroup(count) => s.writer == Idle && CanTake(s.queue, count)
    case WriteBytes(count) =>
      s.writer.Appending? && s.writer.written + count <= |EncodeAll(crc, InFlight(s))|
    case SyncLog => s.writer.Appending? && s.writer.written == |EncodeAll(crc, InFlight(s))|
    case Acknowledge => s.writer.Synced? && AllDurable(InFlight(s))
    case BeginSnapshot => s.gate == Clients && s.queue == [] && s.writer == Idle
    case PublishSnapshot(entries) =>
      s.gate == Flushing && s.queue == [] && s.writer == Idle &&
      Lists(entries, s.data) && AllStorable(entries) && |entries| <= MAX_ENTRIES
    case AbandonSnapshot => s.gate == Flushing && s.queue == [] && s.writer == Idle
    case TruncateLog => s.gate == Published
    case FailTruncate => s.gate == Published
    case CrashAndOpen(cut) =>
      s.disk.synced <= cut <= |s.disk.wal| && Open(crc, Crash(s.disk, cut)).Some?
  }

  function Do(crc: Checksum, s: State, e: Event): State
    requires Enabled(crc, s, e)
  {
    match e
    case Submit(record) =>
      s.(queue := s.queue + [Request([record], false)], submitted := s.submitted + [record])
    case TakeGroup(count) =>
      s.(queue := s.queue[count..], writer := Appending(s.queue[..count], 0))
    case WriteBytes(count) =>
      var w := s.writer.written;
      s.(disk := s.disk.(wal := s.disk.wal + EncodeAll(crc, InFlight(s))[w..w + count]),
         writer := s.writer.(written := w + count))
    case SyncLog =>
      s.(disk := s.disk.(synced := |s.disk.wal|), writer := Synced(s.writer.group))
    case Acknowledge =>
      s.(data := After(s.data, InFlight(s)), writer := Idle,
         log := s.log + InFlight(s), history := s.history + InFlight(s))
    case BeginSnapshot =>
      s.(queue := [Request([], true)], gate := Flushing)
    case PublishSnapshot(entries) =>
      s.(disk := s.disk.(snapshot := Save(crc, entries)), gate := Published, base := s.data)
    case AbandonSnapshot =>
      s.(gate := Clients)
    case TruncateLog =>
      s.(disk := s.disk.(wal := [], synced := 0), gate := Clients, log := [])
    case FailTruncate =>
      s.(gate := Clients)
    case CrashAndOpen(cut) =>
      var opened' := Open(crc, Crash(s.disk, cut)).value;
      var kept := InFlight(s)[..Survivors(crc, s, cut)];
      State(opened'.1, opened'.0, [], Idle, Clients,
            s.base, s.log + kept, s.history + kept, [], |s.history + kept|)
  }

  // ----- What every step keeps -----

  ghost predicate Inv(crc: Checksum, s: State) {
    && AllDurable(s.log) && AllDurable(s.history) && AllDurable(InFlight(s)) && AllDurable(Records(s.queue))
    && DiskInv(crc, s)
    && s.data == After(map[], s.history)
    && s.data == After(s.base, s.log)
    && s.since <= |s.history|
    && s.submitted == s.history[s.since..] + InFlight(s) + Records(s.queue)
    && (s.gate != Clients ==> InFlight(s) == [] && Records(s.queue) == [])
    && (s.gate == Published ==> s.writer == Idle && s.queue == [] && s.base == s.data)
  }

  ghost predicate DiskInv(crc: Checksum, s: State) {
    && LoadBase(crc, s.disk.snapshot) == Some(s.base)
    && Written(crc, s) <= |EncodeAll(crc, InFlight(s))|
    && s.disk.wal == EncodeAll(crc, s.log) + EncodeAll(crc, InFlight(s))[..Written(crc, s)]
    && s.disk.synced == (if s.writer.Synced? then |s.disk.wal| else |EncodeAll(crc, s.log)|)
  }

  lemma FreshInv(crc: Checksum)
    ensures Inv(crc, Fresh())
  {
    assert Effects([]) == [];
  }

  // ----- Recovery -----

  /** The log a crash leaves: whole records, then at most one torn one. */
  lemma CrashedLog(crc: Checksum, s: State, cut: nat)
    requires DiskInv(crc, s) && s.disk.synced <= cut <= |s.disk.wal|
    ensures var kept := InFlight(s)[..Survivors(crc, s, cut)];
            var whole := s.log + kept;
            && |EncodeAll(crc, whole)| <= cut
            && (s.disk.wal[..cut] == EncodeAll(crc, whole)
                || (|kept| < |InFlight(s)|
                    && cut - |EncodeAll(crc, whole)| < |Encode(crc, InFlight(s)[|kept|])|
                    && s.disk.wal[..cut] == EncodeAll(crc, whole)
                                            + Encode(crc, InFlight(s)[|kept|])[..cut - |EncodeAll(crc, whole)|]))
  {
    hide Encode, EncodeAll, WholeRecords;
    var log, flight := EncodeAll(crc, s.log), EncodeAll(crc, InFlight(s));
    var c := cut - |log|;
    var n := Survivors(crc, s, cut);
    assert s.disk.wal[..cut] == log + flight[..c];
    CutShape(crc, InFlight(s), c);
    EncodeAllConcat(crc, s.log, InFlight(s)[..n]);
    if n == |InFlight(s)| {
      assert InFlight(s)[..n] == InFlight(s);
      assert flight[..c] == flight;
    } else {
      var torn := Encode(crc, InFlight(s)[n])[..c - |EncodeAll(crc, InFlight(s)[..n])|];
      assert log + (EncodeAll(crc, InFlight(s)[..n]) + torn) == EncodeAll(crc, s.log + InFlight(s)[..n]) + torn;
    }
  }

  lemma SurvivorsAreDurable(crc: Checksum, s: State, n: nat)
    requires Inv(crc, s) && n <= |InFlight(s)|
    ensures AllDurable(s.log + InFlight(s)[..n])
    ensures AllDurable(s.history + InFlight(s)[..n])
    ensures After(s.base, s.log + InFlight(s)[..n]) == After(map[], s.history + InFlight(s)[..n])
  {
    AfterConcat(s.base, s.log, InFlight(s)[..n]);
    AfterConcat(map[], s.history, InFlight(s)[..n]);
  }

  /**
   In every state that keeps the invariant, whatever instant and byte the crash hits, `open`
   succeeds and its table is that of every record acknowledged so far followed by some prefix of
   the one group in flight. The log is left with exactly those records.
   */
  lemma CrashRecovers(crc: Checksum, s: State, cut: nat)
    requires Inv(crc, s) && s.disk.synced <= cut <= |s.disk.wal|
    ensures var kept := InFlight(s)[..Survivors(crc, s, cut)];
            && AllDurable(s.history + kept)
            && var log := EncodeAll(crc, s.log + kept);
               Open(crc, Crash(s.disk, cut))
               == Some((After(map[], s.history + kept), Disk(s.disk.snapshot, log, |log|)))
  {
    hide Encode, EncodeAll, WholeRecords, Effects, MutateAll, Replay, Load;
    var n := Survivors(crc, s, cut);
    var kept := InFlight(s)[..n];
    var whole := s.log + kept;
    var file := s.disk.wal[..cut];
    CrashedLog(crc, s, cut);
    SurvivorsAreDurable(crc, s, n);
    DurableApplies(s.base, whole);
    if file == EncodeAll(crc, whole) {
      ReplayClean(crc, Apply, s.base, whole);
    } else {
      assert Durable(InFlight(s)[n]);
      ReplayTorn(crc, Apply, s.base, whole, InFlight(s)[n], cut - |EncodeAll(crc, whole)|);
    }
    assert file[..|EncodeAll(crc, whole)|] == EncodeAll(crc, whole);
  }

  /** Once the group is past its fsync, nothing of it can be lost any more. */
  lemma SyncedGroupSurvives(crc: Checksum, s: State, cut: nat)
    requires DiskInv(crc, s) && s.writer.Synced? && s.disk.synced <= cut <= |s.disk.wal|
    ensures InFlight(s)[..Survivors(crc, s, cut)] == InFlight(s)
  {
    hide Encode, EncodeAll;
    assert cut == |EncodeAll(crc, s.log)| + |EncodeAll(crc, InFlight(s))|;
    AllWhole(crc, InFlight(s));
  }

  lemma {:induction false} AllWhole(crc: Checksum, rs: seq<WalRecord>)
    ensures WholeRecords(crc, rs, |EncodeAll(crc, rs)|) == |rs|
  {
    hide Encode;
    if rs != [] { AllWhole(crc, rs[1..]); }
  }

  // ----- Each step -----

  lemma KeepsSubmit(crc: Checksum, s: State, record: WalRecord)
    requires Inv(crc, s) && Enabled(crc, s, Submit(record))
    ensures Inv(crc, Do(crc, s, Submit(record)))
  {
    hide After, Durable, DiskInv, LoadBase;
    assert DiskInv(crc, Do(crc, s, Submit(record))) by { SubmitKeepsDisk(crc, s, record); }
    LaterRecords(s.queue, record);
    hide Records;
  }

  lemma LaterRecords(queue: seq<Request>, record: WalRecord)
    ensures Records(queue + [Request([record], false)]) == Records(queue) + [record]
  {
    RecordsConcat(queue, [Request([record], false)]);
    assert Records([Request([record], false)]) == [record];
  }

  lemma SubmitKeepsDisk(crc: Checksum, s: State, record: WalRecord)
    requires DiskInv(crc, s) && Enabled(crc, s, Submit(record))
    ensures DiskInv(crc, Do(crc, s, Submit(record)))
  {
    hide EncodeAll, LoadBase, Durable;
  }

  lemma SplitQueue(queue: seq<Request>, count: nat)
    requires count <= |queue| && AllDurable(Records(queue))
    ensures Records(queue) == Records(queue[..count]) + Records(queue[count..])
    ensures AllDurable(Records(queue[..count])) && AllDurable(Records(queue[count..]))
  {
    hide Records, Durable;
    assert queue == queue[..count] + queue[count..];
    RecordsConcat(queue[..count], queue[count..]);
    var a, b := Records(queue[..count]), Records(queue[count..]);
    forall i | 0 <= i < |a| ensures Durable(a[i]) { assert (a + b)[i] == a[i]; }
    forall i | 0 <= i < |b| ensures Durable(b[i]) { assert (a + b)[|a| + i] == b[i]; }
  }

  lemma KeepsTakeGroup(crc: Checksum, s: State, count: nat)
    requires Inv(crc, s) && Enabled(crc, s, TakeGroup(count))
    ensures Inv(crc, Do(crc, s, TakeGroup(count)))
  {
    hide Effects, MutateAll, Load, Records, EncodeAll, Durable;
    SplitQueue(s.queue, count);
  }

  lemma KeepsWriteBytes(crc: Checksum, s: State, count: nat)
    requires Inv(crc, s) && Enabled(crc, s, WriteBytes(count))
    ensures Inv(crc, Do(crc, s, WriteBytes(count)))
  {
    hide After, EncodeAll, AllDurable, LoadBase, Records;
    var flight, w := EncodeAll(crc, InFlight(s)), s.writer.written;
    assert flight[..w] + flight[w..w + count] == flight[..w + count];
  }

  lemma KeepsSyncLog(crc: Checksum, s: State)
    requires Inv(crc, s) && Enabled(crc, s, SyncLog)
    ensures Inv(crc, Do(crc, s, SyncLog))
  {}

  lemma KeepsAcknowledge(crc: Checksum, s: State)
    requires Inv(crc, s) && Enabled(crc, s, Acknowledge)
    ensures Inv(crc, Do(crc, s, Acknowledge))
  {
    hide After, EncodeAll, Durable, LoadBase, Records;
    var flight := InFlight(s);
    AfterConcat(s.base, s.log, flight);
    AfterConcat(map[], s.history, flight);
    assert (s.history + flight)[s.since..] == s.history[s.since..] + flight;
    assert DiskInv(crc, Do(crc, s, Acknowledge)) by { AcknowledgeKeepsDisk(crc, s); }
    hide DiskInv;
  }

  lemma AcknowledgeKeepsDisk(crc: Checksum, s: State)
    requires DiskInv(crc, s) && Enabled(crc, s, Acknowledge)
    ensures DiskInv(crc, Do(crc, s, Acknowledge))
  {
    hide After, EncodeAll, Durable, LoadBase;
    var flight := EncodeAll(crc, InFlight(s));
    EncodeAllConcat(crc, s.log, InFlight(s));
    assert flight[..|flight|] == flight;
    NothingWritten(crc);
  }

  lemma NothingWritten(crc: Checksum)
    ensures EncodeAll(crc, []) == []
  {}

  lemma KeepsPublish(crc: Checksum, s: State, entries: seq<Entry>)
    requires Inv(crc, s) && Enabled(crc, s, PublishSnapshot(entries))
    ensures Inv(crc, Do(crc, s, PublishSnapshot(entries)))
  {
    hide Effects, MutateAll, EncodeAll, Load, Payload;
    LoadInvertsSave(crc, entries, s.data);
    AfterIdempotent(s.base, s.log);
  }

  lemma KeepsTruncate(crc: Checksum, s: State)
    requires Inv(crc, s) && Enabled(crc, s, TruncateLog)
    ensures Inv(crc, Do(crc, s, TruncateLog))
  {
    assert Effects([]) == [];
  }

  lemma KeepsCrash(crc: Checksum, s: State, cut: nat)
    requires Inv(crc, s) && Enabled(crc, s, CrashAndOpen(cut))
    ensures Inv(crc, Do(crc, s, CrashAndOpen(cut)))
  {
    hide Effects, MutateAll, WholeRecords, Encode, Replay, Load, Effect;
    CrashRecovers(crc, s, cut);
    SurvivorsAreDurable(crc, s, Survivors(crc, s, cut));
  }

  lemma KeepsGate(crc: Checksum, s: State, e: Event)
    requires Inv(crc, s) && Enabled(crc, s, e) && (e.BeginSnapshot? || e.AbandonSnapshot? || e.FailTruncate?)
    ensures Inv(crc, Do(crc, s, e))
  {
    hide Effects, MutateAll, Load, EncodeAll, Durable;
    assert Records([Request([], true)]) == [];
  }

  /** Every step keeps the invariant. */
  lemma StepKeepsInv(crc: Checksum, s: State, e: Event)
    requires Inv(crc, s) && Enabled(crc, s, e)
    ensures Inv(crc, Do(crc, s, e))
  {
    hide *;
    match e
    case Submit(record) => KeepsSubmit(crc, s, record);
    case TakeGroup(count) => KeepsTakeGroup(crc, s, count);
    case WriteBytes(count) => KeepsWriteBytes(crc, s, count);
    case SyncLog => KeepsSyncLog(crc, s);
    case Acknowledge => KeepsAcknowledge(crc, s);
    case BeginSnapshot => KeepsGate(crc, s, e);
    case PublishSnapshot(entries) => KeepsPublish(crc, s, entries);
    case AbandonSnapshot => KeepsGate(crc, s, e);
    case TruncateLog => KeepsTruncate(crc, s);
    case FailTruncate => KeepsGate(crc, s, e);
    case CrashAndOpen(cut) => KeepsCrash(crc, s, cut);
  }

  // ----- Runs -----

  ghost predicate CanRun(crc: Checksum, s: State, es: seq<Event>)
    decreases |es|
  {
    es == [] || (Enabled(crc, s, es[0]) && CanRun(crc, Do(crc, s, es[0]), es[1..]))
  }

  ghost function Run(crc: Checksum, s: State, es: seq<Event>): State
    requires CanRun(crc, s, es)
    decreases |es|
  {
    if es == [] then s else Run(crc, Do(crc, s, es[0]), es[1..])
  }

  lemma {:induction false} RunKeepsInv(crc: Checksum, s: State, es: seq<Event>)
    requires Inv(crc, s) && CanRun(crc, s, es)
    ensures Inv(crc, Run(crc, s, es))
    decreases |es|
  {
    hide Inv, Do, Enabled;
    if es != [] {
      StepKeepsInv(crc, s, es[0]);
      RunKeepsInv(crc, Do(crc, s, es[0]), es[1..]);
    }
  }

  /** What has been applied once is never dropped or reordered, not even by a crash. */
  lemma {:induction false} HistoryOnlyGrows(crc: Checksum, s: State, es: seq<Event>)
    requires CanRun(crc, s, es)
    ensures s.history <= Run(crc, s, es).history
    decreases |es|
  {
    hide Enabled, Open, EncodeAll;
    if es != [] {
      HistoryOnlyGrows(crc, Do(crc, s, es[0]), es[1..]);
      assert s.history <= Do(crc, s, es[0]).history;
    }
  }

  /**
   Every run of set, delete, batch and snapshot from a fresh engine, with any number of crashes and of truncations that
   fail on the way: the table in memory is that of the history, and a crash at any byte now is recovered by
   `open` to the history followed by a prefix of the group in flight. What was submitted since the last
   open is, in order, applied, in flight or queued.
   */
  lemma EveryRunRecovers(crc: Checksum, es: seq<Event>, cut: nat)
    requires CanRun(crc, Fresh(), es)
    requires var s := Run(crc, Fresh(), es); s.disk.synced <= cut <= |s.disk.wal|
    ensures var s := Run(crc, Fresh(), es);
            var kept := InFlight(s)[..Survivors(crc, s, cut)];
            && AllDurable(s.history + kept) && AllDurable(s.history)
            && s.data == After(map[], s.history)
            && Open(crc, Crash(s.disk, cut)).Some?
            && Open(crc, Crash(s.disk, cut)).value.0 == After(map[], s.history + kept)
            && s.since <= |s.history|
            && s.submitted == s.history[s.since..] + InFlight(s) + Records(s.queue)
  {
    hide Open, Do, Enabled, Effects, MutateAll, DiskInv, Survivors, Records;
    FreshInv(crc);
    RunKeepsInv(crc, Fresh(), es);
    CrashRecovers(crc, Run(crc, Fresh(), es), cut);
  }

  /**
   What a client reads: at every point of every run, the last applied set or delete of a key decides what the engine
   holds for it; so it does after a crash at any byte and an open, unless a record in flight names the key.
   */
  lemma EveryRunReadsLastWrite(crc: Checksum, es: seq<Event>, cut: nat, n: nat, key: seq<byte>)
    requires CanRun(crc, Fresh(), es)
    requires var s := Run(crc, Fresh(), es);
             && s.disk.synced <= cut <= |s.disk.wal| && n < |s.history|
             && s.history[n].key == key && (s.history[n].operation == SET || s.history[n].operation == DELETE)
             && forall j :: n < j < |s.history| ==> !Names(s.history[j], key)
    ensures var s := Run(crc, Fresh(), es);
            && Holds(s.data, s.history[n])
            && Open(crc, Crash(s.disk, cut)).Some?
            && ((forall j :: 0 <= j < |InFlight(s)| ==> !Names(InFlight(s)[j], key)) ==>
                  Holds(Open(crc, Crash(s.disk, cut)).value.0, s.history[n]))
  {
    hide Open, Do, Enabled, After, DiskInv, Survivors, Records, Durable, Names, CanRun, Run;
    EveryRunRecovers(crc, es, cut);
    var s := Run(crc, Fresh(), es);
    LastRecordDecides(map[], s.history, n, key);
    var kept := InFlight(s)[..Survivors(crc, s, cut)];
    if forall j :: 0 <= j < |InFlight(s)| ==> !Names(InFlight(s)[j], key) {
      var all := s.history + kept;
      forall j | n < j < |all| ensures !Names(all[j], key) {
        if j >= |s.history| { assert all[j] == InFlight(s)[j - |s.history|]; }
      }
      LastRecordDecides(map[], all, n, key);
    }
  }

  /** What a table holds after a set or delete. */
  predicate Holds(table: Table, r: WalRecord) {
    if r.operation == SET then r.key in table && table[r.key] == r.value else r.key !in table
  }
}
