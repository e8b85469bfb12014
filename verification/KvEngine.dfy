/** The engine object: its methods as the source runs them, tied to the steps of `KvRuns`. */
module KvEngine {
  import opened Bytes
  import opened Common
  import opened Wal
  import opened Snapshot
  import opened KvTable
  import opened KvRuns

  /** What others queue before a turn of the writer, how many bytes the disk takes in it, if not all, and whether fsync succeeds. */
  datatype Turn = Turn(arriving: seq<Request>, room: Option<nat>, syncs: bool)

  /** What is seen of an engine. */
  datatype Engine = Engine(
    isOpen: bool, error: Status, data: Table, queue: seq<Request>, snapshot: Option<seq<byte>>, file: seq<byte>, synced: nat)

  class LocalKvEngine {
    const log: LogFile
    var snapshot: Option<seq<byte>>
    var data: Table
    var queue: seq<Request>
    var isOpen: bool
    var writerError: Status

    ghost predicate Valid()
      reads this, log
    {
      log.Valid() && log.isOpen
    }

    ghost function OnDisk(): Disk
      reads this, log
    {
      Disk(snapshot, log.file, log.synced)
    }

    constructor ()
      ensures Valid() && fresh(log) && OnDisk() == Disk(None, [], 0) && !isOpen
    {
      log := new LogFile();
      snapshot, data, queue, isOpen, writerError := None, map[], [], false, Ok;
    }

    method Open(crc: Checksum) returns (status: Status)
      requires Valid()
      modifies this, log
      ensures Valid() && queue == [] && isOpen == (status == Ok)
      ensures status == Ok <==> KvRuns.Open(crc, old(OnDisk())).Some?
      ensures status == Ok ==>
                var found := KvRuns.Open(crc, old(OnDisk())).value;
                data == found.0 && snapshot == found.1.snapshot && log.file == found.1.wal
    {
      hide Next;
      queue, data, isOpen := [], map[], false;
      if snapshot.Some? {
        var loaded := LoadFrom(crc, snapshot.value);
        if loaded.None? { return Internal; }
        data := loaded.value;
      }
      status, data := log.ReplayInto(crc, Apply, data);
      if status != Ok { return status; }
      isOpen, writerError := true, Ok;
    }

    ghost function See(): Engine
      reads this, log
    {
      Engine(isOpen, writerError, data, queue, snapshot, log.file, log.synced)
    }

    /**
     `submit`: the request joins the queue unless the engine is closed or its writer has failed, and the caller waits
     for the turn of the writer that takes it, while others queue theirs. `turn` tells each turn from here on.
     */
    method Submit(crc: Checksum, record: WalRecord, turn: nat -> Turn) returns (status: Status)
      requires Valid()
      modifies this, log
      ensures Valid() && Answered(crc, record, turn, old(See()), See(), status)
    {
      hide Records, EncodeAll, Encode, Contains, Good, After, GoodSoFar, AllDurable, WrittenBy, Logged, ApplyUntil, ApplyAll;
      if !isOpen { return FailedPrecondition; }
      if writerError != Ok { return writerError; }
      var request := Request([record], false);
      var place: nat, i := |queue|, 0;
      queue := queue + [request];
      ghost var all := Records(old(queue)) + [record];
      ghost var done, good := [], Good(all, turn);
      SubmitStarts(crc, old(queue), record, turn, data, log.file);
      while true
        invariant Valid() && isOpen && snapshot == old(snapshot) && old(log.file) <= log.file
        invariant place < |queue| && queue[place] == request && done + Records(queue[..place + 1]) == all
        invariant good ==> AllDurable(Records(queue)) && GoodSoFar(crc, old(data), old(log.file), done, data, log.file)
        decreases place
      {
        MoreArrive(queue, turn, i, good, all, place);
        queue := queue + turn(i).arriving;
        ghost var before, file, table := queue, log.file, data;
        var waiting := |queue|;
        ghost var group;
        status, group := WriterTurn(crc, turn(i));
        var taken := waiting - |queue|;
        assert before == group + queue && taken == |group|;
        if good { GoodStep(crc, turn, i, all, done, group, queue, old(data), old(log.file), table, file); }
        if taken > place {
          TakenWith(before, place, taken, done, all);
          if status == Ok { AnsweredInLog(crc, group, place, record, old(log.file), file, turn(i)); }
          if good { GoodEnd(crc, all, done, group, old(data), old(log.file), data, log.file); }
          return;
        }
        StillWaiting(before, place, taken, done, all);
        done, place, i := done + Records(group), place - taken, i + 1;
      }
    }

    method Set(crc: Checksum, key: seq<byte>, value: seq<byte>, turn: nat -> Turn) returns (status: Status)
      requires Valid()
      modifies this, log
      ensures Valid()
      ensures key == [] ==> status == InvalidArgument && See() == old(See())
      ensures key != [] ==> Answered(crc, WalRecord(SET, key, value), turn, old(See()), See(), status)
    {
      hide Answered;
      if key == [] { return InvalidArgument; }
      status := Submit(crc, WalRecord(SET, key, value), turn);
    }

    method Delete(crc: Checksum, key: seq<byte>, turn: nat -> Turn) returns (status: Status)
      requires Valid()
      modifies this, log
      ensures Valid()
      ensures key == [] ==> status == InvalidArgument && See() == old(See())
      ensures key != [] ==> Answered(crc, WalRecord(DELETE, key, []), turn, old(See()), See(), status)
    {
      hide Answered;
      if key == [] { return InvalidArgument; }
      status := Submit(crc, WalRecord(DELETE, key, []), turn);
    }

    /** A batch becomes one record, which can be read back exactly when it is within the limits of `apply` and `replay`. */
    method WriteBatch(crc: Checksum, mutations: seq<WalRecord>, turn: nat -> Turn) returns (status: Status)
      requires Valid()
      modifies this, log
      ensures Valid()
      ensures !Takes(mutations) ==> status == InvalidArgument && See() == old(See())
      ensures Takes(mutations) ==>
                && Answered(crc, BatchRecord(mutations), turn, old(See()), See(), status)
                && (Durable(BatchRecord(mutations)) <==> |mutations| <= 100_000 && BatchSize(mutations) <= 64 * 1024 * 1024)
    {
      hide Answered, Durable, EncodeBatch, BatchSize;
      var encodeStatus, value := EncodeBatchLoop(mutations);
      if encodeStatus != Ok { return encodeStatus; }
      BatchDurableIff(mutations);
      status := Submit(crc, WalRecord(BATCH, BATCH_KEY, value), turn);
    }

    /** The inner loop of the writer: requests are taken until 64 are held or a barrier follows the first. */
    method TakeGroupLoop() returns (group: seq<Request>)
      requires queue != []
      modifies this`queue
      ensures CanTake(old(queue), |group|)
      ensures group == old(queue)[..|group|] && queue == old(queue)[|group|..]
      ensures |group| <= 64 && (queue == [] || |group| == 64 || (|group| >= 2 && group[|group| - 1].barrier))
    {
      group := [queue[0]];
      queue := queue[1..];
      while queue != [] && |group| < MAX_GROUP
        invariant 1 <= |group| <= MAX_GROUP && group + queue == old(queue)
        invariant forall i :: 1 <= i < |group| ==> !group[i].barrier
        decreases |queue|
      {
        ghost var before := group;
        group := group + [queue[0]];
        queue := queue[1..];
        if group[|group| - 1].barrier {
          assert old(queue) == before + ([group[|group| - 1]] + queue);
          break;
        }
      }
      assert old(queue) == group + queue;
    }

    /** `get`: what the table binds the key to. */
    method Get(key: seq<byte>) returns (status: Status, value: seq<byte>)
      ensures status == if key == [] then InvalidArgument else if key in data then Ok else NotFound
      ensures status == Ok ==> value == data[key]
    {
      if key == [] { return InvalidArgument, []; }
      if key !in data { return NotFound, []; }
      return Ok, data[key];
    }

    /**
     One turn of the writer loop: append the group, one fsync, apply, then answer every request with one status. A turn
     is made whether or not an earlier one failed.
     */
    method WriterTurn(crc: Checksum, turn: Turn) returns (status: Status, ghost group: seq<Request>)
      requires Valid() && queue != []
      modifies this, log
      ensures Valid() && snapshot == old(snapshot) && isOpen == old(isOpen)
      ensures CanTake(old(queue), |group|)
      ensures group == old(queue)[..|group|] && queue == old(queue)[|group|..]
      ensures var records := Records(group);
              && log.file == old(log.file) + WrittenBy(crc, records, turn)
              && log.synced == (if records != [] && Logged(crc, records, turn) then |log.file| else old(log.synced))
              && data == (if Logged(crc, records, turn) then ApplyUntil(old(data), records) else old(data))
              && (status == Ok <==> Lands(crc, old(data), records, turn))
              && writerError == (if status == Ok then old(writerError) else status)
    {
      hide Encode, Effect, BatchBytes, WholeBatch, Fits;
      var taken := TakeGroupLoop();
      group := taken;
      var records := CollectRecords(taken);
      status := Ok;
      var room := RoomOf(turn, BatchBytes(crc, records, true));
      if records != [] {
        status := log.AppendBatch(crc, records, true, room, turn.syncs);
      } else {
        NothingFits(crc, room, true);
      }
      if status == Ok { status := ApplyRecords(records); }
      if status != Ok { writerError := status; }
    }

    method ApplyRecords(records: seq<WalRecord>) returns (status: Status)
      modifies this`data
      ensures status == Ok <==> ApplyAll(Apply, old(data), records).Some?
      ensures data == ApplyUntil(old(data), records)
    {
      hide Effect;
      for i := 0 to |records|
        invariant ApplyAll(Apply, data, records[i..]) == ApplyAll(Apply, old(data), records)
        invariant ApplyUntil(data, records[i..]) == ApplyUntil(old(data), records)
      {
        assert records[i..][1..] == records[i + 1..];
        var next := ApplyLoop(data, records[i]);
        if next.None? { return Internal; }
        data := next.value;
      }
      assert records[|records|..] == [];
      status := Ok;
    }

    /**
     `snapshot`, with the gate held, so that nobody else is waiting: a barrier, then publish, then truncate. `list` is
     the order in which the table is walked; `saves`, `truncates` and `syncs` say which calls succeed.
     */
    method TakeSnapshot(crc: Checksum, list: Table -> seq<Entry>, turn: Turn, saves: bool, truncates: bool, syncs: bool)
      returns (status: Status)
      requires Valid() && queue == []
      modifies this, log
      ensures Valid() && queue == [] && data == old(data) && isOpen == old(isOpen) && writerError == old(writerError)
      ensures var published := isOpen && AllStorable(list(data)) && saves;
              && snapshot == (if published then Save(crc, list(data)) else old(snapshot))
              && log.file == (if published && truncates then [] else old(log.file))
              && (status == Ok <==> published && truncates && syncs)
              && (!isOpen ==> status == FailedPrecondition)
    {
      hide Payload, Encode, Effect;
      if !isOpen { return FailedPrecondition; }
      queue := [Request([], true)];
      ghost var group;
      status, group := WriterTurn(crc, turn);
      BarrierOnly(crc, group, old(data), turn);
      var saved := SaveTo(crc, list(data));
      if saved.None? { return InvalidArgument; }
      if !saves { return Internal; }
      snapshot := saved;
      status := log.Truncate(truncates, syncs);
    }
  }

  // ----- What a turn does -----

  /** Records are applied up to the first that `apply` refuses. */
  function ApplyUntil(table: Table, records: seq<WalRecord>): Table
    decreases |records|
  {
    if records == [] || Apply(table, records[0]).None? then table
    else ApplyUntil(Apply(table, records[0]).value, records[1..])
  }

  function RoomOf(turn: Turn, bytes: seq<byte>): nat {
    if turn.room.Some? then turn.room.value else |bytes|
  }

  /** What a turn adds to the log. */
  function WrittenBy(crc: Checksum, records: seq<WalRecord>, turn: Turn): seq<byte> {
    var bytes := BatchBytes(crc, records, true);
    Fits(bytes, RoomOf(turn, bytes))
  }

  /** All records of the group are in the log and synced. */
  predicate Logged(crc: Checksum, records: seq<WalRecord>, turn: Turn) {
    records == [] || (WholeBatch(crc, records, true, RoomOf(turn, BatchBytes(crc, records, true))) && turn.syncs)
  }

  /** The group is acknowledged. */
  predicate Lands(crc: Checksum, table: Table, records: seq<WalRecord>, turn: Turn) {
    Logged(crc, records, turn) && ApplyAll(Apply, table, records).Some?
  }

  lemma BarrierOnly(crc: Checksum, group: seq<Request>, table: Table, turn: Turn)
    requires CanTake([Request([], true)], |group|) && group == [Request([], true)][..|group|]
    ensures Records(group) == [] && [Request([], true)][|group|..] == [] && Lands(crc, table, Records(group), turn)
    ensures ApplyUntil(table, Records(group)) == table && WrittenBy(crc, Records(group), turn) == []
  {
    assert group == [Request([], true)];
    NothingFits(crc, RoomOf(turn, BatchBytes(crc, [], true)), true);
  }

  /** Durable records that the disk takes are logged whole, applied and acknowledged. */
  lemma DurableLands(crc: Checksum, table: Table, records: seq<WalRecord>, turn: Turn)
    requires AllDurable(records) && (turn.room.Some? ==> |EncodeAll(crc, records)| <= turn.room.value) && turn.syncs
    ensures Lands(crc, table, records, turn)
    ensures WrittenBy(crc, records, turn) == EncodeAll(crc, records)
    ensures ApplyUntil(table, records) == After(table, records)
  {
    hide EncodeAll, Effect, Effects, MutateAll;
    LeadingIs(records, |records|);
    assert records[..|records|] == records;
    DurableApplies(table, records);
    UntilIsAll(table, records);
  }

  lemma {:induction false} UntilIsAll(table: Table, records: seq<WalRecord>)
    requires ApplyAll(Apply, table, records).Some?
    ensures ApplyUntil(table, records) == ApplyAll(Apply, table, records).value
    decreases |records|
  {
    hide Apply;
    if records != [] { UntilIsAll(Apply(table, records[0]).value, records[1..]); }
  }

  // ----- What a call that waits gets -----

  /** All that is queued can be read back, and all turns to come write and sync what they take. */
  ghost predicate Good(records: seq<WalRecord>, turn: nat -> Turn) {
    AllDurable(records) && forall i: nat :: turn(i).syncs && turn(i).room.None? && AllDurable(Records(turn(i).arriving))
  }

  /** The record is in the log, behind what the log held. */
  ghost predicate Contains(crc: Checksum, before: seq<byte>, record: WalRecord, after: seq<byte>) {
    exists a, b :: after == before + a + Encode(crc, record) + b
  }

  /** The log grew by these records and maybe some that were queued later, and the table by their mutations. */
  ghost predicate Whole(crc: Checksum, before: Engine, all: seq<WalRecord>, after: Engine) {
    exists more :: GoodSoFar(crc, before.data, before.file, all + more, after.data, after.file)
  }

  /** What a caller of `submit` gets. */
  ghost predicate Answered(crc: Checksum, record: WalRecord, turn: nat -> Turn, before: Engine, after: Engine, status: Status) {
    var all := Records(before.queue) + [record];
    if !before.isOpen then status == FailedPrecondition && after == before
    else if before.error != Ok then status == before.error && after == before
    else
      && after.isOpen && after.snapshot == before.snapshot
      && (status == Ok ==> Contains(crc, before.file, record, after.file) && after.synced == |after.file|)
      && (Good(all, turn) ==> status == Ok && Whole(crc, before, all, after))
  }

  /** A set or delete that was answered, and not named again by what was taken with it, is what the table then holds. */
  lemma ReadYourWrite(crc: Checksum, r: WalRecord, turn: nat -> Turn, before: Engine, after: Engine, status: Status)
    requires Answered(crc, r, turn, before, after, status) && before.isOpen && before.error == Ok
    requires Good(Records(before.queue) + [r], turn) && (r.operation == SET || r.operation == DELETE)
    ensures exists more :: AllDurable(more)
                           && GoodSoFar(crc, before.data, before.file, Records(before.queue) + [r] + more, after.data, after.file)
                           && ((forall j :: 0 <= j < |more| ==> !Names(more[j], r.key)) ==> Holds(after.data, r))
  {
    hide Records, Durable, Names, After, Contains, EncodeAll;
    var all := Records(before.queue) + [r];
    var more :| GoodSoFar(crc, before.data, before.file, all + more, after.data, after.file);
    var n := |all| - 1;
    forall j | 0 <= j < |more| ensures Durable(more[j]) { assert (all + more)[|all| + j] == more[j]; }
    if forall j :: 0 <= j < |more| ==> !Names(more[j], r.key) {
      forall j | n < j < |all + more| ensures !Names((all + more)[j], r.key) { assert (all + more)[j] == more[j - |all|]; }
      assert (all + more)[n] == r;
      LastRecordDecides(before.data, all + more, n, r.key);
    }
    assert AllDurable(more);
  }

  /** What `writeBatch` takes. */
  predicate Takes(mutations: seq<WalRecord>) {
    0 < |mutations| < U32_LIMIT && AllMutations(mutations) && AllBounded(mutations)
  }

  /** The records done so far are in the log and in the table. */
  ghost predicate GoodSoFar(crc: Checksum, data: Table, file: seq<byte>, done: seq<WalRecord>, data': Table, file': seq<byte>) {
    AllDurable(done) && file' == file + EncodeAll(crc, done) && data' == After(data, done)
  }

  lemma SubmitStarts(crc: Checksum, queue: seq<Request>, record: WalRecord, turn: nat -> Turn, data: Table, file: seq<byte>)
    ensures var more := queue + [Request([record], false)];
            && Records(more) == Records(queue) + [record] && [] + Records(more[..|queue| + 1]) == Records(more)
            && (Good(Records(queue) + [record], turn) ==> AllDurable(Records(more)))
            && GoodSoFar(crc, data, file, [], data, file)
  {
    hide Records, AllDurable, GoodSoFar, Good;
    var more := queue + [Request([record], false)];
    LaterRecords(queue, record);
    assert more[..|queue| + 1] == more;
    NothingBefore(Records(more));
    NothingDone(crc, data, file);
    if Good(Records(queue) + [record], turn) { GoodIsDurable(Records(queue) + [record], turn); }
  }

  lemma NothingBefore(records: seq<WalRecord>)
    ensures [] + records == records
  {}

  lemma GoodIsDurable(records: seq<WalRecord>, turn: nat -> Turn)
    requires Good(records, turn)
    ensures AllDurable(records)
  {
    hide AllDurable;
  }

  lemma NothingDone(crc: Checksum, data: Table, file: seq<byte>)
    ensures GoodSoFar(crc, data, file, [], data, file)
  {
    assert Effects([]) == [];
  }

  lemma MoreArrive(queue: seq<Request>, turn: nat -> Turn, i: nat, good: bool, all: seq<WalRecord>, place: nat)
    requires place < |queue| && (good ==> Good(all, turn) && AllDurable(Records(queue)))
    ensures (queue + turn(i).arriving)[..place + 1] == queue[..place + 1]
    ensures good ==> AllDurable(Records(queue + turn(i).arriving))
  {
    hide Records, Durable;
    RecordsConcat(queue, turn(i).arriving);
  }

  /** A turn with a disk that takes everything. */
  lemma GoodStep(crc: Checksum, turn: nat -> Turn, i: nat, all: seq<WalRecord>, done: seq<WalRecord>, group: seq<Request>,
                 rest: seq<Request>, data: Table, file: seq<byte>, data1: Table, file1: seq<byte>)
    requires Good(all, turn) && AllDurable(Records(group + rest))
    requires GoodSoFar(crc, data, file, done, data1, file1)
    ensures AllDurable(Records(rest)) && Lands(crc, data1, Records(group), turn(i))
    ensures var records := Records(group);
            && Logged(crc, records, turn(i))
            && GoodSoFar(crc, data, file, done + records, ApplyUntil(data1, records), file1 + WrittenBy(crc, records, turn(i)))
  {
    hide EncodeAll, Effects, MutateAll, Durable, Records, WrittenBy, Logged, ApplyUntil;
    var b, c := Records(group), Records(rest);
    RecordsConcat(group, rest);
    forall j | 0 <= j < |b| ensures Durable(b[j]) { assert (b + c)[j] == b[j]; }
    forall j | 0 <= j < |c| ensures Durable(c[j]) { assert (b + c)[|b| + j] == c[j]; }
    DurableLands(crc, data1, b, turn(i));
    EncodeAllConcat(crc, done, b);
    AfterConcat(data, done, b);
  }

  /** The request at `place` is taken together with those before it and maybe some behind it. */
  lemma TakenWith(queue: seq<Request>, place: nat, count: nat, done: seq<WalRecord>, all: seq<WalRecord>)
    requires place < count <= |queue| && done + Records(queue[..place + 1]) == all
    ensures all <= done + Records(queue[..count])
  {
    hide Records;
    var front, back := queue[..place + 1], queue[place + 1..count];
    assert queue[..count] == front + back;
    RecordsConcat(front, back);
    assert done + (Records(front) + Records(back)) == all + Records(back);
  }

  lemma StillWaiting(queue: seq<Request>, place: nat, count: nat, done: seq<WalRecord>, all: seq<WalRecord>)
    requires count <= place < |queue| && done + Records(queue[..place + 1]) == all
    ensures done + Records(queue[..count]) + Records(queue[count..][..place - count + 1]) == all
  {
    hide Records;
    var front, back := queue[..count], queue[count..][..place - count + 1];
    assert queue[..place + 1] == front + back;
    RecordsConcat(front, back);
  }

  lemma GoodEnd(crc: Checksum, all: seq<WalRecord>, done: seq<WalRecord>, group: seq<Request>,
                data: Table, file: seq<byte>, data': Table, file': seq<byte>)
    requires all <= done + Records(group) && GoodSoFar(crc, data, file, done + Records(group), data', file')
    ensures exists more :: GoodSoFar(crc, data, file, all + more, data', file')
  {
    hide GoodSoFar;
    var more := (done + Records(group))[|all|..];
    assert all + more == done + Records(group);
  }

  /** A request of an acknowledged group is in the log. */
  lemma AnsweredInLog(crc: Checksum, group: seq<Request>, place: nat, record: WalRecord,
                      file: seq<byte>, file1: seq<byte>, turn: Turn)
    requires place < |group| && group[place] == Request([record], false)
    requires file <= file1 && Logged(crc, Records(group), turn)
    ensures Records(group) != [] && Contains(crc, file, record, file1 + WrittenBy(crc, Records(group), turn))
  {
    hide Encode, EncodeAll, Leading, Records, Contains;
    var front, back := group[..place], group[place + 1..];
    assert group == front + [group[place]] + back;
    RecordsConcat(front + [group[place]], back);
    LaterRecords(front, record);
    var records := Records(group);
    assert records == Records(front) + [record] + Records(back);
    assert WrittenBy(crc, records, turn) == EncodeAll(crc, records) by { assert records[..|records|] == records; }
    RecordInside(crc, Records(front), record, Records(back));
    ContainedBehind(crc, file, file1, EncodeAll(crc, Records(front)), record, EncodeAll(crc, Records(back)));
  }

  lemma ContainedBehind(crc: Checksum, file: seq<byte>, file1: seq<byte>, a: seq<byte>, record: WalRecord, b: seq<byte>)
    requires file <= file1
    ensures Contains(crc, file, record, file1 + (a + Encode(crc, record) + b))
  {
    hide Encode;
    assert file1 + (a + Encode(crc, record) + b) == file + (file1[|file|..] + a) + Encode(crc, record) + b;
  }

  lemma RecordInside(crc: Checksum, front: seq<WalRecord>, record: WalRecord, back: seq<WalRecord>)
    ensures EncodeAll(crc, front + [record] + back) == EncodeAll(crc, front) + Encode(crc, record) + EncodeAll(crc, back)
  {
    hide Encode;
    EncodeAllConcat(crc, front + [record], back);
    EncodeAllConcat(crc, front, [record]);
    assert EncodeAll(crc, [record]) == Encode(crc, record);
  }

  method CollectRecords(group: seq<Request>) returns (records: seq<WalRecord>)
    ensures records == Records(group)
  {
    records := [];
    for i := 0 to |group|
      invariant records + Records(group[i..]) == Records(group)
    {
      assert group[i..][1..] == group[i + 1..];
      records := records + group[i].records;
    }
    assert records == records + Records(group[|group|..]);
  }

  /** The turn the writer makes, as steps of a run. */
  function TurnEvents(crc: Checksum, group: seq<Request>): seq<Event> {
    [TakeGroup(|group|), WriteBytes(|EncodeAll(crc, Records(group))|), SyncLog, Acknowledge]
  }

  /** A writer turn is four steps of the run model: the same log, the same table, the same queue. */
  lemma TurnIsSteps(crc: Checksum, s: State, count: nat)
    requires Inv(crc, s) && s.writer == Idle && CanTake(s.queue, count)
    ensures var group := s.queue[..count];
            var es := TurnEvents(crc, group);
            && CanRun(crc, s, es) && AllDurable(Records(group))
            && var s' := Run(crc, s, es);
               && s'.disk.wal == s.disk.wal + EncodeAll(crc, Records(group))
               && s'.disk.synced == |s'.disk.wal|
               && s'.data == After(s.data, Records(group))
               && s'.queue == s.queue[count..]
               && s'.history == s.history + Records(group)
  {
    hide EncodeAll, Effects, MutateAll, Records, Inv, Open;
    var group := s.queue[..count];
    var flight := EncodeAll(crc, Records(group));
    var es := TurnEvents(crc, group);
    assert AllDurable(Records(group)) by { QueueIsDurable(crc, s, count); }
    var s1 := Do(crc, s, es[0]);
    var s2 := Do(crc, s1, es[1]);
    var s3 := Do(crc, s2, es[2]);
    var s4 := Do(crc, s3, es[3]);
    assert flight[0..|flight|] == flight;
    RunFour(crc, s, es, s1, s2, s3, s4);
  }

  lemma QueueIsDurable(crc: Checksum, s: State, count: nat)
    requires Inv(crc, s) && count <= |s.queue|
    ensures AllDurable(Records(s.queue[..count]))
  {
    SplitQueue(s.queue, count);
  }

  lemma RunFour(crc: Checksum, s: State, es: seq<Event>, s1: State, s2: State, s3: State, s4: State)
    requires |es| == 4
    requires Enabled(crc, s, es[0]) && s1 == Do(crc, s, es[0])
    requires Enabled(crc, s1, es[1]) && s2 == Do(crc, s1, es[1])
    requires Enabled(crc, s2, es[2]) && s3 == Do(crc, s2, es[2])
    requires Enabled(crc, s3, es[3]) && s4 == Do(crc, s3, es[3])
    ensures CanRun(crc, s, es) && Run(crc, s, es) == s4
  {
    hide Enabled, Do;
    assert CanRun(crc, s4, []) && Run(crc, s4, []) == s4;
    assert es[3..][1..] == [] && es[3..][0] == es[3];
    assert CanRun(crc, s3, es[3..]) && Run(crc, s3, es[3..]) == s4;
    assert es[2..][1..] == es[3..] && es[2..][0] == es[2];
    assert CanRun(crc, s2, es[2..]) && Run(crc, s2, es[2..]) == s4;
    assert es[1..][1..] == es[2..] && es[1..][0] == es[1];
    assert CanRun(crc, s1, es[1..]) && Run(crc, s1, es[1..]) == s4;
  }

  /** A published snapshot can be opened again if and only if it lists at most ten million keys. */
  lemma SnapshotOpensIff(crc: Checksum, entries: seq<Entry>, table: Table)
    requires Lists(entries, table) && AllStorable(entries) && |entries| < U64_LIMIT
    ensures KvRuns.Open(crc, Disk(Save(crc, entries), [], 0))
            == if |entries| <= 10_000_000 then Some((table, Disk(Save(crc, entries), [], 0))) else None
  {
    hide Load, Payload;
    LoadInvertsSave(crc, entries, table);
  }
}
