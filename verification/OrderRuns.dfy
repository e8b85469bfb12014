/**
 The steps of order creation, with a stop of the process between any two of them. One call holds the service's lock
 from its checks to its answer.
 */
module OrderRuns {
  import opened Common
  import opened OrderService

  /** Between calls; about to write the record; record and memory written, event to publish; record to delete. */
  datatype Stage = Idle | Storing(call: Call) | Publishing(call: Call) | Deleting(call: Call)

  /** `stored` and `acked` are history: the order of each record on disk, and the orders answered with Ok. */
  datatype Machine = Machine(book: Book, stage: Stage, stored: map<string, Order>, acked: map<string, Order>)

  datatype Event =
    | Begin(call: Call)
    | Stored(ok: bool)
    | Published(ok: bool)
    | Deleted(ok: bool)
    | Restart(orders: map<string, Order>, index: map<string, string>)

  ghost predicate Enabled(m: Machine, e: Event) {
    match e
    case Begin(_) => m.stage == Idle
    case Stored(_) => m.stage.Storing?
    case Published(_) => m.stage.Publishing?
    case Deleted(_) => m.stage.Deleting?
    case Restart(orders, index) => Rebuilt(m.book.disk, orders, index)
  }

  ghost function Do(m: Machine, e: Event): Machine
    requires Enabled(m, e)
  {
    match e
    case Begin(c) => if Proceeds(m.book, c) then m.(stage := Storing(c)) else m
    case Stored(ok) =>
      var c := m.stage.call;
      if ok then m.(book := Enter(m.book, c), stage := Publishing(c), stored := m.stored[c.id := Made(c)])
      else m.(stage := Idle)
    case Published(ok) =>
      var c := m.stage.call;
      if ok then m.(stage := Idle, acked := m.acked[c.id := Made(c)])
      else m.(book := Forget(m.book, c), stage := Deleting(c))
    case Deleted(ok) =>
      var c := m.stage.call;
      if ok then m.(book := m.book.(disk := m.book.disk - {c.id}), stage := Idle, stored := m.stored - {c.id})
      else m.(stage := Idle)
    case Restart(orders, index) => m.(book := Book(orders, index, m.book.disk), stage := Idle)
  }

  ghost predicate CanRun(m: Machine, es: seq<Event>)
    decreases |es|
  {
    es == [] || (Enabled(m, es[0]) && CanRun(Do(m, es[0]), es[1..]))
  }

  ghost function Run(m: Machine, es: seq<Event>): Machine
    requires CanRun(m, es)
    decreases |es|
  {
    if es == [] then m else Run(Do(m, es[0]), es[1..])
  }

  const NEW: Machine := Machine(Book(map[], map[], map[]), Idle, map[], map[])

  // ----- A whole call is a run of its steps -----

  function StepsOf(b: Book, c: Call, a: Answers): seq<Event> {
    if !Proceeds(b, c) then [Begin(c)]
    else if !a.stores then [Begin(c), Stored(false)]
    else if a.publishes then [Begin(c), Stored(true), Published(true)]
    else [Begin(c), Stored(true), Published(false), Deleted(a.deletes)]
  }

  lemma CreateIsSteps(m: Machine, c: Call, a: Answers)
    requires m.stage == Idle
    ensures CanRun(m, StepsOf(m.book, c, a))
    ensures var f := Run(m, StepsOf(m.book, c, a)); f.stage == Idle && f.book == Create(m.book, c, a).1
  {
    hide Serialize, Rebuilt;
    var es := StepsOf(m.book, c, a);
    var m1 := Do(m, es[0]);
    RunFirst(m, es);
    if Proceeds(m.book, c) {
      var m2 := Do(m1, es[1]);
      RunFirst(m1, es[1..]);
      if a.stores {
        var m3 := Do(m2, es[2]);
        RunFirst(m2, es[2..]);
        if !a.publishes { RunFirst(m3, es[3..]); }
      }
    }
  }

  lemma RunFirst(m: Machine, es: seq<Event>)
    requires es != [] && Enabled(m, es[0])
    ensures CanRun(m, es) <==> CanRun(Do(m, es[0]), es[1..])
    ensures CanRun(m, es) ==> Run(m, es) == Run(Do(m, es[0]), es[1..])
    ensures |es| == 1 ==> CanRun(m, es) && Run(m, es) == Do(m, es[0])
  {
    if |es| == 1 { assert es[1..] == []; }
  }

  // ----- What the records restore to -----

  /** The texts survive the record format and the quantity is a 64-bit number. */
  predicate Plain(o: Order) {
    TabFree(o) && INT64_MIN <= o.quantity <= INT64_MAX
  }

  /** The record of the order under its own id. */
  predicate IsRecord(record: string, id: string, o: Order) {
    o.id == id && INT64_MIN <= o.quantity <= INT64_MAX && record == Serialize(o)
  }

  /** The disk holds the records of `stored`, each under its own id. */
  ghost predicate Holds(disk: map<string, string>, stored: map<string, Order>) {
    disk.Keys == stored.Keys && forall id :: id in stored ==> IsRecord(disk[id], id, stored[id])
  }

  predicate AllPlain(stored: map<string, Order>) {
    forall id :: id in stored ==> Plain(stored[id])
  }

  predicate DistinctKeys(stored: map<string, Order>) {
    forall i, j :: i in stored && j in stored && stored[i].key == stored[j].key ==> i == j
  }

  lemma HeldRecords(disk: map<string, string>, stored: map<string, Order>, o: Order)
    requires Holds(disk, stored) && AllPlain(stored)
    ensures Records(disk, o) <==> o.id in stored && stored[o.id] == o
  {
    hide Serialize, Deserialize;
    if Records(disk, o) {
      var d :| d in disk && Deserialize(disk[d]) == Some(o);
      RoundTripIff(stored[d]);
    }
    if o.id in stored && stored[o.id] == o {
      RoundTripIff(o);
      assert o.id in disk && Deserialize(disk[o.id]) == Some(o);
    }
  }

  lemma HeldDecode(disk: map<string, string>, stored: map<string, Order>)
    requires Holds(disk, stored) && AllPlain(stored)
    ensures AllDecode(disk)
  {
    hide Serialize, Deserialize;
    forall d | d in disk ensures Deserialize(disk[d]).Some? { RoundTripIff(stored[d]); }
  }

  /**
   Whatever order the records are listed in, a restart rebuilds exactly the stored orders, and an index that is
   the inverse of the table exactly when no two records share an idempotency key.
   */
  lemma RebuiltIs(disk: map<string, string>, stored: map<string, Order>, orders: map<string, Order>, index: map<string, string>)
    requires Holds(disk, stored) && AllPlain(stored) && Rebuilt(disk, orders, index)
    ensures orders == stored
    ensures Inverse(Book(orders, index, disk)) <==> DistinctKeys(stored)
  {
    hide Serialize, Records, Plain;
    forall o ensures Records(disk, o) <==> o.id in stored && stored[o.id] == o { HeldRecords(disk, stored, o); }
    forall id | id in stored ensures id in orders { assert Records(disk, stored[id]); }
    assert orders.Keys == stored.Keys;
    assert orders == stored;
    forall k | k in index ensures index[k] in stored && stored[index[k]].key == k {
      assert Indexed(disk, k, index[k]);
    }
    if DistinctKeys(stored) {
      forall id | id in stored ensures stored[id].key in index && index[stored[id].key] == id {
        assert Records(disk, stored[id]);
      }
    }
  }

  ghost predicate HasKey(stored: map<string, Order>, key: string, id: string) {
    id in stored && stored[id].key == key
  }

  /** One index that a restart may build. */
  ghost function IndexOf(stored: map<string, Order>): map<string, string> {
    map k | k in KeysOf(stored) :: var id :| HasKey(stored, k, id); id
  }

  ghost function KeysOf(stored: map<string, Order>): (keys: set<string>)
    ensures forall k :: k in keys <==> exists id :: HasKey(stored, k, id)
  {
    var keys := set id | id in stored :: stored[id].key;
    assert forall id :: id in stored ==> HasKey(stored, stored[id].key, id);
    keys
  }

  lemma SomeRebuilt(disk: map<string, string>, stored: map<string, Order>)
    requires Holds(disk, stored) && AllPlain(stored)
    ensures Rebuilt(disk, stored, IndexOf(stored))
  {
    hide Serialize, Records, Plain, IsRecord;
    forall o ensures Records(disk, o) <==> o.id in stored && stored[o.id] == o { HeldRecords(disk, stored, o); }
    forall id | id in stored ensures stored[id].id == id { assert IsRecord(disk[id], id, stored[id]); RecordId(disk[id], id, stored[id]); }
    forall k | k in IndexOf(stored) ensures Indexed(disk, k, IndexOf(stored)[k]) {
      assert Records(disk, stored[IndexOf(stored)[k]]);
    }
  }

  lemma RecordId(record: string, id: string, o: Order)
    requires IsRecord(record, id, o)
    ensures o.id == id
  {}

  /** What is read back never holds a tab. */
  lemma DecodedIsTabFree(record: string)
    requires Deserialize(record).Some?
    ensures TabFree(Deserialize(record).value)
  {
    FourLinesHaveNoTab(record);
    hide FourLines;
  }

  lemma RecordedIsTabFree(disk: map<string, string>, o: Order)
    requires Records(disk, o)
    ensures TabFree(o)
  {
    hide Deserialize, TabFree;
    var d :| d in disk && Deserialize(disk[d]) == Some(o);
    DecodedIsTabFree(disk[d]);
  }

  /** A restart can give back the stored orders exactly when none of their texts holds a tab. */
  lemma RestoresIff(disk: map<string, string>, stored: map<string, Order>)
    requires Holds(disk, stored)
    ensures Rebuilt(disk, stored, IndexOf(stored)) <==> AllPlain(stored)
  {
    hide Serialize, TabFree, IndexOf, Records, IndexStored, AllEntered;
    if AllPlain(stored) { SomeRebuilt(disk, stored); }
    if Rebuilt(disk, stored, IndexOf(stored)) {
      forall id | id in stored ensures Plain(stored[id]) {
        RecordedIsTabFree(disk, stored[id]);
        assert IsRecord(disk[id], id, stored[id]);
      }
    }
  }

  lemma HoldsMore(disk: map<string, string>, stored: map<string, Order>, o: Order)
    requires Holds(disk, stored) && INT64_MIN <= o.quantity <= INT64_MAX
    ensures Holds(disk[o.id := Serialize(o)], stored[o.id := o])
  {
    hide Serialize;
  }

  lemma HoldsLess(disk: map<string, string>, stored: map<string, Order>, id: string)
    requires Holds(disk, stored)
    ensures Holds(disk - {id}, stored - {id})
  {
    hide IsRecord;
  }

  // ----- What every run keeps on disk -----

  /** The quantity of a call is a 64-bit number. */
  predicate InRange(e: Event) {
    e.Begin? ==> INT64_MIN <= e.call.quantity <= INT64_MAX
  }

  ghost predicate DiskInv(m: Machine) {
    Holds(m.book.disk, m.stored) && (m.stage.Storing? ==> INT64_MIN <= m.stage.call.quantity <= INT64_MAX)
  }

  lemma StepKeepsDisk(m: Machine, e: Event)
    requires DiskInv(m) && Enabled(m, e) && InRange(e)
    ensures DiskInv(Do(m, e))
  {
    hide Serialize, Holds, Rebuilt;
    match e
    case Begin(_) =>
    case Stored(ok) => HoldsMore(m.book.disk, m.stored, Made(m.stage.call));
    case Published(_) =>
    case Deleted(_) => HoldsLess(m.book.disk, m.stored, m.stage.call.id);
    case Restart(_, _) =>
  }

  lemma {:induction false} RunKeepsDisk(m: Machine, es: seq<Event>)
    requires DiskInv(m) && CanRun(m, es) && forall i :: 0 <= i < |es| ==> InRange(es[i])
    ensures DiskInv(Run(m, es))
    decreases |es|
  {
    hide DiskInv, Do, Enabled, InRange;
    if es != [] {
      StepKeepsDisk(m, es[0]);
      RunKeepsDisk(Do(m, es[0]), es[1..]);
    }
  }

  // ----- What every run without tabs keeps -----

  predicate PlainCall(e: Event) {
    e.Begin? ==> Plain(Made(e.call))
  }

  ghost predicate Within(a: map<string, Order>, b: map<string, Order>) {
    forall id :: id in a ==> id in b && b[id] == a[id]
  }

  ghost predicate StageInv(m: Machine) {
    match m.stage
    case Idle => true
    case Storing(c) => c.id !in m.book.orders && Plain(Made(c))
    case Publishing(c) => c.id in m.book.orders && m.book.orders[c.id] == Made(c) && c.id !in m.acked
    case Deleting(c) => c.id !in m.book.orders
  }

  /** What was acknowledged is in memory, and what is in memory is stored. */
  ghost predicate Inv(m: Machine) {
    && DiskInv(m) && AllPlain(m.stored) && StageInv(m)
    && Within(m.acked, m.book.orders) && Within(m.book.orders, m.stored)
  }

  lemma StepKeepsInv(m: Machine, e: Event)
    requires Inv(m) && Enabled(m, e) && PlainCall(e)
    ensures Inv(Do(m, e))
  {
    hide Rebuilt, Plain, DiskInv, Serialize;
    assert DiskInv(Do(m, e)) by { PlainIsInRange(e); StepKeepsDisk(m, e); }
    match e
    case Begin(_) =>
    case Stored(ok) => if ok { MorePlain(m.stored, Made(m.stage.call)); }
    case Published(_) =>
    case Deleted(_) =>
    case Restart(orders, index) =>
      DiskHolds(m);
      hide Holds, AllPlain;
      RebuiltIs(m.book.disk, m.stored, orders, index);
  }

  lemma MorePlain(stored: map<string, Order>, o: Order)
    requires AllPlain(stored) && Plain(o)
    ensures AllPlain(stored[o.id := o])
  {
    hide Plain;
  }

  lemma DiskHolds(m: Machine)
    requires DiskInv(m)
    ensures Holds(m.book.disk, m.stored)
  {
    hide Holds;
  }

  lemma PlainIsInRange(e: Event)
    requires PlainCall(e)
    ensures InRange(e)
  {
    hide TabFree;
  }

  lemma {:induction false} RunKeepsInv(m: Machine, es: seq<Event>)
    requires Inv(m) && CanRun(m, es) && forall i :: 0 <= i < |es| ==> PlainCall(es[i])
    ensures Inv(Run(m, es))
    decreases |es|
  {
    hide Inv, Do, Enabled, PlainCall;
    if es != [] {
      StepKeepsInv(m, es[0]);
      RunKeepsInv(Do(m, es[0]), es[1..]);
    }
  }

  lemma NewInv()
    ensures Inv(NEW)
  {
    hide Serialize, Plain;
  }

  /**
   A stop between any two steps of any run, earlier restarts and failed deletes included: a restart can give back the
   stored orders exactly when none of their texts holds a tab. Then every record decodes, however the records are listed
   the restart rebuilds exactly the stored orders, and its index is the inverse of the table exactly when no two records
   share an idempotency key. When no call has a tab, none of that is open but the last, and every order that was ever
   acknowledged comes back.
   */
  lemma EveryStopRestores(es: seq<Event>, orders: map<string, Order>, index: map<string, string>)
    requires CanRun(NEW, es) && forall i :: 0 <= i < |es| ==> InRange(es[i])
    ensures var f := Run(NEW, es);
            && f.stored.Keys == f.book.disk.Keys
            && (Rebuilt(f.book.disk, f.stored, IndexOf(f.stored)) <==> AllPlain(f.stored))
            && (AllPlain(f.stored) ==> AllDecode(f.book.disk))
            && (AllPlain(f.stored) && Rebuilt(f.book.disk, orders, index) ==>
                  orders == f.stored && (Inverse(Book(orders, index, f.book.disk)) <==> DistinctKeys(f.stored)))
            && ((forall i :: 0 <= i < |es| ==> PlainCall(es[i])) ==> AllPlain(f.stored) && Within(f.acked, f.stored))
  {
    hide Serialize, Plain, Rebuilt, Inverse, CanRun, Run, AllDecode, DistinctKeys, IsRecord, PlainCall, InRange, AllPlain;
    assert Inv(NEW) && DiskInv(NEW) by { NewInv(); }
    RunKeepsDisk(NEW, es);
    var f := Run(NEW, es);
    assert Holds(f.book.disk, f.stored);
    RestoresIff(f.book.disk, f.stored);
    if AllPlain(f.stored) {
      HeldDecode(f.book.disk, f.stored);
      if Rebuilt(f.book.disk, orders, index) { RebuiltIs(f.book.disk, f.stored, orders, index); }
    }
    if forall i :: 0 <= i < |es| ==> PlainCall(es[i]) { RunKeepsInv(NEW, es); }
  }

  // ----- While deletes succeed -----

  /** What is stored: the orders in memory, and the record of a call that is undone up to its delete. */
  function StoredBy(m: Machine): map<string, Order> {
    if m.stage.Deleting? then m.book.orders[m.stage.call.id := Made(m.stage.call)] else m.book.orders
  }

  ghost predicate CleanStage(m: Machine) {
    match m.stage
    case Idle => true
    case Storing(c) => Proceeds(m.book, c)
    case Publishing(c) => c.id in m.book.orders && m.book.orders[c.id] == Made(c) && GoodCall(c) && Inverse(Forget(m.book, c))
    case Deleting(c) => Proceeds(m.book, c)
  }

  /** No record is left behind. */
  ghost predicate Clean(m: Machine) {
    Inverse(m.book) && CleanStage(m) && m.stored == StoredBy(m)
  }

  lemma CleanKeysDiffer(m: Machine)
    requires Clean(m)
    ensures DistinctKeys(m.stored)
  {
    hide Serialize;
    forall i, j | i in m.stored && j in m.stored && m.stored[i].key == m.stored[j].key ensures i == j {
      assert i in m.book.orders ==> m.book.index[m.book.orders[i].key] == i;
      assert j in m.book.orders ==> m.book.index[m.book.orders[j].key] == j;
    }
  }

  lemma StoredKeepsClean(m: Machine)
    requires Clean(m) && m.stage.Storing?
    ensures Clean(Do(m, Stored(true)))
  {
    hide Serialize;
    var c := m.stage.call;
    EnterKeepsInverse(m.book, c);
    ForgetUndoes(m.book, c);
    assert Inverse(Forget(Enter(m.book, c), c)) by { SameInverse(m.book, Forget(Enter(m.book, c), c)); }
  }

  lemma SameInverse(a: Book, b: Book)
    requires Inverse(a) && b.orders == a.orders && b.index == a.index
    ensures Inverse(b)
  {}

  lemma PublishedKeepsClean(m: Machine, ok: bool)
    requires Clean(m) && m.stage.Publishing?
    ensures Clean(Do(m, Published(ok)))
  {
    hide Serialize, Inverse;
    var c := m.stage.call;
    assert (m.book.orders - {c.id})[c.id := Made(c)] == m.book.orders;
  }

  lemma DeletedKeepsClean(m: Machine)
    requires Clean(m) && m.stage.Deleting?
    ensures Clean(Do(m, Deleted(true)))
  {
    hide Serialize;
    var c := m.stage.call;
    assert m.book.orders[c.id := Made(c)] - {c.id} == m.book.orders;
    SameInverse(m.book, Do(m, Deleted(true)).book);
  }

  lemma StepKeepsClean(m: Machine, e: Event)
    requires Inv(m) && Clean(m) && Enabled(m, e) && PlainCall(e) && e != Deleted(false)
    ensures Clean(Do(m, e))
  {
    hide Serialize, Plain, Holds, Inverse, Rebuilt, DistinctKeys, IsRecord;
    match e
    case Begin(_) =>
    case Stored(ok) => if ok { StoredKeepsClean(m); }
    case Published(ok) => PublishedKeepsClean(m, ok);
    case Deleted(_) => DeletedKeepsClean(m);
    case Restart(orders, index) =>
      CleanKeysDiffer(m);
      RebuiltIs(m.book.disk, m.stored, orders, index);
  }

  /** While no call has a tab and every delete succeeds, no two records share an idempotency key. */
  lemma {:induction false} DeletesKeepKeys(m: Machine, es: seq<Event>)
    requires Inv(m) && Clean(m) && CanRun(m, es) && forall i :: 0 <= i < |es| ==> PlainCall(es[i]) && es[i] != Deleted(false)
    ensures DistinctKeys(Run(m, es).stored)
    decreases |es|
  {
    hide Inv, Clean, Do, Enabled, PlainCall, DistinctKeys;
    if es != [] {
      StepKeepsInv(m, es[0]);
      StepKeepsClean(m, es[0]);
      DeletesKeepKeys(Do(m, es[0]), es[1..]);
    } else {
      CleanKeysDiffer(m);
    }
  }

  // ----- A delete that fails -----

  /** The records after a call whose event is refused and whose record is left, and another call with its key. */
  lemma TwoRecords(c: Call, d: Call)
    requires GoodCall(c) && GoodCall(d) && c.key == d.key && c.id != d.id
    ensures var b := Create(Book(map[], map[], map[]), c, Answers(true, false, false)).1;
            var f := Create(b, d, Answers(true, true, true)).1;
            && b.orders == map[] && b.index == map[]
            && f.orders == map[d.id := Made(d)] && f.index == map[d.key := d.id]
            && f.disk == map[c.id := Serialize(Made(c)), d.id := Serialize(Made(d))]
  {
    hide Serialize;
    var b := Create(Book(map[], map[], map[]), c, Answers(true, false, false)).1;
    ForgetUndoes(Book(map[], map[], map[]), c);
    assert Proceeds(b, d);
  }

  lemma TwoHeld(c: Call, d: Call)
    requires c.key == d.key && c.id != d.id && Plain(Made(c)) && Plain(Made(d))
    ensures var disk := map[c.id := Serialize(Made(c)), d.id := Serialize(Made(d))];
            var stored := map[c.id := Made(c), d.id := Made(d)];
            Holds(disk, stored) && AllPlain(stored) && !DistinctKeys(stored)
  {
    hide Serialize, TabFree;
    var stored := map[c.id := Made(c), d.id := Made(d)];
    assert c.id in stored && d.id in stored && stored[c.id].key == stored[d.id].key;
  }

  /**
   The family where a delete fails: an order is written, its event refused and its record left; the same key then
   makes another order. Two records share the key, and no restart builds an index inverse to the table.
   */
  lemma FailedDeleteBreaks(c: Call, d: Call, orders: map<string, Order>, index: map<string, string>)
    requires GoodCall(c) && GoodCall(d) && c.key == d.key && c.id != d.id && Plain(Made(c)) && Plain(Made(d))
    ensures var b := Create(Book(map[], map[], map[]), c, Answers(true, false, false)).1;
            var f := Create(b, d, Answers(true, true, true)).1;
            && Inverse(f) && !Mirrored(f) && f.disk.Keys == {c.id, d.id}
            && (Rebuilt(f.disk, orders, index) ==> !Inverse(Book(orders, index, f.disk)))
  {
    hide Serialize, Plain, Rebuilt, Create, Holds, AllPlain, DistinctKeys, GoodCall;
    TwoRecords(c, d);
    TwoHeld(c, d);
    var b := Create(Book(map[], map[], map[]), c, Answers(true, false, false)).1;
    var f := Create(b, d, Answers(true, true, true)).1;
    assert c.id in f.disk && c.id !in f.orders;
    if Rebuilt(f.disk, orders, index) { RebuiltIs(f.disk, map[c.id := Made(c), d.id := Made(d)], orders, index); }
  }
}
