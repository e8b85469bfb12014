/**
 Threads running the inventory calls at the same time. A call changes memory under the locks, then
 writes to storage holding only the persistence lock of its shard, and takes the change back if the
 write failed. Calls on other shards run in between. The process may stop at any point and start again.
 */
module InventoryRuns {
  import opened Common
  import opened Inventory
  import opened InventoryOrphans

  /**
   Memory, storage, the call of each shard that waits for its write, the calls that have looked at their
   reservation but not yet taken the shard, and the quantity each SKU was added with.
   */
  datatype Machine = Machine(
    memory: Ledger, durable: Ledger, pending: map<nat, Change>, looked: map<nat, (Call, Sku)>,
    initial: map<Sku, int>)

  datatype Event =
    | Look(thread: nat, call: Call)
    | Resume(thread: nat)
    | Start(call: Call)
    | Persisted(shard: nat)
    | Failed(shard: nat)
    | Restart(orphans: seq<Op>)

  /** How SKUs are spread over the shards. */
  datatype World = World(shard: Sku -> nat)

  predicate NamesSku(call: Call) {
    call.AddSku? || call.Reserve?
  }

  function CallSku(call: Call): Sku
    requires NamesSku(call)
  {
    match call
    case AddSku(sku, _) => sku
    case Reserve(sku, _, _) => sku
    case _ => assert false; ""
  }

  /** The call takes the shard and runs its part under the memory locks. */
  function Begin(w: World, m: Machine, call: Call, sku: Sku): Machine {
    match Attempt(m.memory, call, sku)
    case Answer(_) => m
    case Changed(c) =>
      m.(memory := Land(m.memory, c),
         pending := m.pending[w.shard(sku) := c],
         initial := if call.AddSku? then m.initial[sku := call.quantity] else m.initial)
  }

  /** A rollback of a release finds the stock it needs. */
  predicate RollbackHasStock(m: Machine, call: Call, sku: Sku) {
    call.RollbackRelease? && call.op in m.memory.reservations && sku in m.memory.stocks ==>
      m.memory.stocks[sku].available >= m.memory.reservations[call.op].quantity
  }

  /** The reservation is still on the SKU that the call saw when it looked. */
  predicate FreshLook(m: Machine, call: Call, sku: Sku) {
    !NamesSku(call) && call.op in m.memory.reservations ==> m.memory.reservations[call.op].sku == sku
  }

  /** No reservation's SKU holds the separator of the stored records, so that all of them read back. */
  predicate PlainLedger(l: Ledger) {
    forall op :: op in l.reservations ==> '|' !in l.reservations[op].sku
  }

  /** What the program can do next. A restart finds the ledger that storage holds, as long as its records read back. */
  predicate Possible(w: World, m: Machine, e: Event) {
    match e
    case Look(_, call) => !NamesSku(call) && call.op in m.memory.reservations
    case Resume(t) => t in m.looked && w.shard(m.looked[t].1) !in m.pending
    case Start(call) =>
      && NamesSku(call) && GoodArguments(call) && w.shard(CallSku(call)) !in m.pending
      && call.quantity <= INT64_MAX
    case Persisted(h) => h in m.pending
    case Failed(h) => h in m.pending
    case Restart(orphans) => AllHeld(m.durable, orphans) && PlainLedger(m.durable)
  }

  /** A call that goes on to change memory does so on the SKU of its reservation, with the stock it takes. */
  predicate Careful(m: Machine, e: Event) {
    e.Resume? && e.thread in m.looked ==>
      var (call, sku) := m.looked[e.thread];
      Attempt(m.memory, call, sku).Changed? ==> FreshLook(m, call, sku) && RollbackHasStock(m, call, sku)
  }

  predicate Enabled(w: World, m: Machine, e: Event) {
    Possible(w, m, e) && Careful(m, e)
  }

  function Do(w: World, m: Machine, e: Event): Machine
    requires Possible(w, m, e)
  {
    match e
    case Look(t, call) => m.(looked := m.looked[t := (call, m.memory.reservations[call.op].sku)])
    case Resume(t) => Begin(w, m, m.looked[t].0, m.looked[t].1).(looked := m.looked - {t})
    case Start(call) => Begin(w, m, call, CallSku(call))
    case Persisted(h) => m.(durable := Land(m.durable, m.pending[h]), pending := m.pending - {h})
    case Failed(h) => m.(memory := Undo(m.memory, m.pending[h]), pending := m.pending - {h})
    case Restart(orphans) =>
      var l := ReleaseAll(m.durable, orphans);
      Machine(l, l, map[], map[], m.initial)
  }

  function Fresh(): Machine {
    Machine(Ledger(map[], map[]), Ledger(map[], map[]), map[], map[], map[])
  }

  // ----- The invariant -----

  ghost predicate Conserved(m: Machine, l: Ledger) {
    forall sku :: sku in l.stocks ==>
      sku in m.initial && l.stocks[sku].Sum() == m.initial[sku] && m.initial[sku] <= INT64_MAX
  }

  predicate Small(l: Ledger) {
    forall op :: op in l.reservations ==> l.reservations[op].quantity <= INT64_MAX
  }

  /** The change is the one its call makes, so that the call's undo goes back to `before`. */
  predicate Undoable(c: Change) {
    match c.call
    case AddSku(_, _) => c.before.None? && c.op.None?
    case Reserve(_, quantity, op) =>
      && c.before == Some(Stock(c.after.available + quantity, c.after.reserved - quantity, c.after.sold))
      && c.op == Some(op) && c.reservationBefore.None? && c.reservationAfter.Some?
    case _ => c.before.Some? && c.op.Some? && c.reservationBefore.Some? && c.reservationAfter.Some?
  }

  /** A waiting call: memory holds its new values, storage still the old ones. */
  ghost predicate Waiting(w: World, m: Machine, h: nat)
    requires h in m.pending
  {
    var c := m.pending[h];
    && w.shard(c.sku) == h && Legal(c) && Undoable(c)
    && Lookup(m.memory.stocks, c.sku) == Some(c.after)
    && Lookup(m.durable.stocks, c.sku) == c.before
    && (c.op.Some? ==>
          && Lookup(m.memory.reservations, c.op.value) == c.reservationAfter
          && Lookup(m.durable.reservations, c.op.value) == c.reservationBefore)
  }

  predicate StockWaits(w: World, m: Machine, sku: Sku) {
    w.shard(sku) in m.pending && m.pending[w.shard(sku)].sku == sku
  }

  predicate OpWaits(m: Machine, op: Op) {
    exists h :: h in m.pending && m.pending[h].op == Some(op)
  }

  /** Away from the waiting calls memory and storage agree. */
  ghost predicate Agree(w: World, m: Machine) {
    && (forall sku :: !StockWaits(w, m, sku) ==> Lookup(m.memory.stocks, sku) == Lookup(m.durable.stocks, sku))
    && (forall op :: !OpWaits(m, op) ==> Lookup(m.memory.reservations, op) == Lookup(m.durable.reservations, op))
  }

  ghost predicate Inv(w: World, m: Machine) {
    && Balanced(m.memory) && Balanced(m.durable)
    && Conserved(m, m.memory) && Conserved(m, m.durable)
    && Small(m.memory) && Small(m.durable)
    && (forall h :: h in m.pending ==> Waiting(w, m, h))
    && Agree(w, m)
    && (forall t :: t in m.looked ==> !NamesSku(m.looked[t].0))
  }

  // ----- Beginning a call -----

  lemma ChangeShape(l: Ledger, call: Call, sku: Sku)
    requires Attempt(l, call, sku).Changed?
    ensures var c := Attempt(l, call, sku).change;
            && Undoable(c) && Matches(l, c) && c.call == call && c.sku == sku
            && (c.op.Some? <==> !call.AddSku?)
            && (c.op.Some? ==> c.op.value == call.op && c.reservationAfter.Some?)
            && (call.Reserve? ==> c.reservationAfter.value.quantity == call.quantity)
            && (!NamesSku(call) ==> call.op in l.reservations
                                    && c.reservationAfter.value.quantity == l.reservations[call.op].quantity)
            && (call.AddSku? ==> c.after == Stock(call.quantity, 0, 0))
  {}

  /** What the machine needs of a call: its arguments are checked and it works on the SKU of its reservation. */
  ghost predicate Sound(w: World, m: Machine, call: Call, sku: Sku) {
    && GoodArguments(call) && w.shard(sku) !in m.pending
    && (NamesSku(call) ==> call.sku == sku && call.quantity <= INT64_MAX)
    && FreshLook(m, call, sku) && RollbackHasStock(m, call, sku)
  }

  /** A waiting operation is in memory, on the SKU its call works on. */
  lemma WaitingOp(w: World, m: Machine, h: nat)
    requires h in m.pending && Waiting(w, m, h) && m.pending[h].op.Some?
    ensures var op := m.pending[h].op.value;
            && op in m.memory.reservations
            && m.memory.reservations[op].sku == m.pending[h].sku && w.shard(m.memory.reservations[op].sku) == h
  {
    hide Undoable;
  }

  /** No two calls wait with one operation. */
  lemma OneWaits(w: World, m: Machine, g: nat, h: nat)
    requires g in m.pending && h in m.pending && Waiting(w, m, g) && Waiting(w, m, h)
    requires m.pending[g].op.Some? && m.pending[g].op == m.pending[h].op
    ensures g == h
  {
    hide Waiting;
    WaitingOp(w, m, g);
    WaitingOp(w, m, h);
  }

  /** The operation of a call that is about to change memory does not wait elsewhere. */
  lemma BeginOpIsFree(w: World, m: Machine, call: Call, sku: Sku)
    requires Inv(w, m) && Sound(w, m, call, sku) && Attempt(m.memory, call, sku).Changed? && !call.AddSku?
    ensures !OpWaits(m, call.op)
  {
    hide Waiting, Balanced, Agree, Conserved;
    forall h | h in m.pending ensures m.pending[h].op != Some(call.op) {
      if m.pending[h].op == Some(call.op) { WaitingOp(w, m, h); }
    }
  }

  lemma BeginBalance(w: World, m: Machine, call: Call, sku: Sku)
    requires Inv(w, m) && Sound(w, m, call, sku) && Attempt(m.memory, call, sku).Changed?
    ensures var c := Attempt(m.memory, call, sku).change;
            Legal(c) && Balanced(Land(m.memory, c))
  {
    hide Total, Agree, Waiting, Conserved;
    var c := Attempt(m.memory, call, sku).change;
    AttemptIsLegal(m.memory, call, sku);
    ChangeShape(m.memory, call, sku);
    LandKeepsBalance(m.memory, c);
  }

  lemma BeginConserves(w: World, m: Machine, call: Call, sku: Sku)
    requires Inv(w, m) && Sound(w, m, call, sku) && Attempt(m.memory, call, sku).Changed?
    requires Legal(Attempt(m.memory, call, sku).change)
    ensures var m' := Begin(w, m, call, sku);
            Conserved(m', m'.memory) && Conserved(m', m'.durable)
  {
    hide Balanced, Waiting, Attempt, Undoable, Small, Legal;
    var c := Attempt(m.memory, call, sku).change;
    ChangeShape(m.memory, call, sku);
    BeginIs(w, m, call, sku);
    assert !StockWaits(w, m, sku);
    LandSums(m.memory, c);
  }

  lemma BeginSmall(w: World, m: Machine, call: Call, sku: Sku)
    requires Inv(w, m) && Sound(w, m, call, sku) && Attempt(m.memory, call, sku).Changed?
    requires Legal(Attempt(m.memory, call, sku).change)
    ensures Small(Begin(w, m, call, sku).memory)
  {
    hide Balanced, Waiting, Attempt, Undoable, Agree, Conserved, Legal;
    ChangeShape(m.memory, call, sku);
    BeginIs(w, m, call, sku);
    LandSums(m.memory, Attempt(m.memory, call, sku).change);
  }

  lemma LandSums(l: Ledger, c: Change)
    requires Matches(l, c) && Legal(c)
    ensures forall sku :: sku in l.stocks ==> Land(l, c).stocks[sku].Sum() == l.stocks[sku].Sum()
    ensures c.op.Some? ==> c.before.Some? && c.reservationAfter.Some? && c.reservationAfter.value.sku == c.sku
  {}

  lemma BeginWaiting(w: World, m: Machine, call: Call, sku: Sku)
    requires Inv(w, m) && Sound(w, m, call, sku) && Attempt(m.memory, call, sku).Changed?
    requires Legal(Attempt(m.memory, call, sku).change)
    ensures var m' := Begin(w, m, call, sku);
            forall h :: h in m'.pending ==> Waiting(w, m', h)
  {
    hide Balanced, Legal, Undoable, Attempt;
    var c := Attempt(m.memory, call, sku).change;
    var m' := Begin(w, m, call, sku);
    ChangeShape(m.memory, call, sku);
    BeginIs(w, m, call, sku);
    assert !StockWaits(w, m, sku);
    if c.op.Some? { BeginOpIsFree(w, m, call, sku); }
    forall h | h in m'.pending ensures Waiting(w, m', h) {
      if h != w.shard(sku) { assert Waiting(w, m, h); }
    }
  }

  lemma BeginIs(w: World, m: Machine, call: Call, sku: Sku)
    requires Attempt(m.memory, call, sku).Changed?
    ensures var c := Attempt(m.memory, call, sku).change;
            Begin(w, m, call, sku) == m.(
              memory := Land(m.memory, c), pending := m.pending[w.shard(sku) := c],
              initial := if call.AddSku? then m.initial[sku := call.quantity] else m.initial)
  {}

  lemma BeginAgree(w: World, m: Machine, call: Call, sku: Sku)
    requires Inv(w, m) && Sound(w, m, call, sku) && Attempt(m.memory, call, sku).Changed?
    ensures Agree(w, Begin(w, m, call, sku))
  {
    hide Balanced, Legal, Undoable, Attempt;
    var c := Attempt(m.memory, call, sku).change;
    var m' := Begin(w, m, call, sku);
    ChangeShape(m.memory, call, sku);
    BeginIs(w, m, call, sku);
    forall k | !StockWaits(w, m', k) ensures Lookup(m'.memory.stocks, k) == Lookup(m'.durable.stocks, k) {
      assert !StockWaits(w, m, k);
    }
    if c.op.Some? { assert m'.pending[w.shard(sku)].op == c.op; }
    forall o | !OpWaits(m', o) ensures Lookup(m'.memory.reservations, o) == Lookup(m'.durable.reservations, o) {
      StillFree(w, m, m', w.shard(sku), o);
    }
  }

  lemma StillFree(w: World, m: Machine, m': Machine, h: nat, o: Op)
    requires h !in m.pending && forall g :: g in m.pending ==> g in m'.pending && m'.pending[g] == m.pending[g]
    requires !OpWaits(m', o)
    ensures !OpWaits(m, o)
  {
    forall g | g in m.pending ensures m.pending[g].op != Some(o) { assert m'.pending[g] == m.pending[g]; }
  }

  lemma BeginKeepsInv(w: World, m: Machine, call: Call, sku: Sku)
    requires Inv(w, m) && Sound(w, m, call, sku)
    ensures Inv(w, Begin(w, m, call, sku))
  {
    if Attempt(m.memory, call, sku).Changed? {
      hide Attempt, Balanced, Conserved, Small, Waiting, Agree, Legal;
      BeginBalance(w, m, call, sku);
      BeginConserves(w, m, call, sku);
      BeginSmall(w, m, call, sku);
      BeginWaiting(w, m, call, sku);
      BeginAgree(w, m, call, sku);
      BeginIs(w, m, call, sku);
    }
  }

  // ----- The write -----

  lemma PersistedConserves(w: World, m: Machine, h: nat)
    requires Inv(w, m) && h in m.pending
    ensures var m' := Do(w, m, Persisted(h));
            Conserved(m', m'.durable) && Small(m'.durable)
  {
    hide Balanced, Legal, Undoable, Agree;
    var c := m.pending[h];
    assert Waiting(w, m, h);
    LegalShape(c);
    var m' := Do(w, m, Persisted(h));
    forall k | k in m'.durable.stocks
      ensures k in m'.initial && m'.durable.stocks[k].Sum() == m'.initial[k] && m'.initial[k] <= INT64_MAX
    {
      if k == c.sku { assert m'.durable.stocks[k] == m.memory.stocks[k]; }
    }
  }

  lemma OnlyOneLess(m: Machine, m': Machine, h: nat, o: Op)
    requires h in m.pending && m'.pending == m.pending - {h} && m.pending[h].op != Some(o) && !OpWaits(m', o)
    ensures !OpWaits(m, o)
  {
    forall g | g in m.pending ensures m.pending[g].op != Some(o) {
      if g != h { assert g in m'.pending && m'.pending[g] == m.pending[g]; }
    }
  }

  lemma PersistedWaiting(w: World, m: Machine, h: nat)
    requires Inv(w, m) && h in m.pending
    ensures var m' := Do(w, m, Persisted(h));
            (forall g :: g in m'.pending ==> Waiting(w, m', g)) && Agree(w, m')
  {
    hide Balanced, Legal, Undoable;
    var c := m.pending[h];
    var m' := Do(w, m, Persisted(h));
    assert Waiting(w, m, h);
    LegalShape(c);
    forall g | g in m'.pending ensures Waiting(w, m', g) {
      assert Waiting(w, m, g);
      if c.op.Some? && m.pending[g].op == c.op { OneWaits(w, m, g, h); }
    }
    forall k | !StockWaits(w, m', k) ensures Lookup(m'.memory.stocks, k) == Lookup(m'.durable.stocks, k) {
      if k != c.sku { assert !StockWaits(w, m, k); }
    }
    forall o | !OpWaits(m', o) ensures Lookup(m'.memory.reservations, o) == Lookup(m'.durable.reservations, o) {
      if c.op != Some(o) { OnlyOneLess(m, m', h, o); }
    }
  }

  lemma PersistedKeepsInv(w: World, m: Machine, h: nat)
    requires Inv(w, m) && h in m.pending
    ensures Inv(w, Do(w, m, Persisted(h)))
  {
    hide Balanced, Conserved, Small, Agree, Legal, Undoable;
    assert Waiting(w, m, h);
    LandKeepsBalance(m.durable, m.pending[h]);
    PersistedConserves(w, m, h);
    PersistedWaiting(w, m, h);
    ConservedBy(m, Do(w, m, Persisted(h)), m.memory);
  }

  lemma LegalShape(c: Change)
    requires Legal(c)
    ensures c.op.Some? ==> c.reservationAfter.Some? && c.reservationAfter.value.sku == c.sku
    ensures c.op.None? ==> c.before.None?
  {}

  /** The undo of a waiting call: back to the values before it. */
  lemma UndoRestores(w: World, m: Machine, h: nat)
    requires Inv(w, m) && h in m.pending
    ensures var c := m.pending[h];
            var l := Undo(m.memory, c);
            && Lookup(l.stocks, c.sku) == c.before
            && (forall k :: k != c.sku ==> Lookup(l.stocks, k) == Lookup(m.memory.stocks, k))
            && (c.op.Some? ==> Lookup(l.reservations, c.op.value) == c.reservationBefore)
            && (forall o :: c.op != Some(o) ==> Lookup(l.reservations, o) == Lookup(m.memory.reservations, o))
  {
    hide Balanced, Legal, Agree;
    assert Waiting(w, m, h);
  }

  /** No reservation can refer to a SKU whose first write is still out. */
  lemma NewSkuIsUnused(w: World, m: Machine, h: nat, op: Op)
    requires Inv(w, m) && h in m.pending && m.pending[h].op.None? && op in m.memory.reservations
    ensures m.memory.reservations[op].sku != m.pending[h].sku
  {
    hide Legal, Undoable, Total;
    var c := m.pending[h];
    assert Waiting(w, m, h);
    if m.memory.reservations[op].sku == c.sku {
      forall g | g in m.pending ensures m.pending[g].op != Some(op) {
        assert Waiting(w, m, g);
        if m.pending[g].op == Some(op) { WaitingOp(w, m, g); }
      }
      assert !OpWaits(m, op);
      assert Lookup(m.memory.reservations, op) == Lookup(m.durable.reservations, op);
      LegalShape(c);
    }
  }

  lemma BalancedWithoutSku(w: World, m: Machine, h: nat, l: Ledger)
    requires Inv(w, m) && h in m.pending && m.pending[h].op.None? && l == Undo(m.memory, m.pending[h])
    ensures Balanced(l)
  {
    var c := m.pending[h];
    assert c.call.AddSku? by { assert Waiting(w, m, h); }
    hide Waiting, Agree, Legal, Undoable, Total;
    forall op | op in l.reservations ensures l.reservations[op].sku in l.stocks {
      NewSkuIsUnused(w, m, h, op);
    }
  }

  /** Taking a legal change back keeps the balance too. */
  lemma BalancedWithout(w: World, m: Machine, h: nat, l: Ledger)
    requires Inv(w, m) && h in m.pending && l == Undo(m.memory, m.pending[h])
    ensures Balanced(l)
  {
    hide Undo, Balanced, Legal, Undoable, Agree;
    if m.pending[h].op.None? {
      BalancedWithoutSku(w, m, h, l);
    } else {
      UndoRestores(w, m, h);
      assert Waiting(w, m, h);
      BalancedWithoutOp(m.memory, l, m.pending[h], m.durable);
    }
  }

  lemma SameLookups<K, V>(a: map<K, V>, b: map<K, V>)
    requires forall k :: Lookup(a, k) == Lookup(b, k)
    ensures a == b
  {
    forall k ensures k in a <==> k in b {
      assert Lookup(a, k) == Lookup(b, k);
    }
    forall k | k in a ensures a[k] == b[k] {
      assert Lookup(a, k) == Lookup(b, k);
    }
  }

  lemma BalancedWithoutOp(memory: Ledger, l: Ledger, c: Change, durable: Ledger)
    requires Balanced(memory) && Balanced(durable) && Legal(c) && c.op.Some?
    requires Lookup(memory.stocks, c.sku) == Some(c.after) && Lookup(memory.reservations, c.op.value) == c.reservationAfter
    requires Matches(durable, c)
    requires Lookup(l.stocks, c.sku) == c.before && Lookup(l.reservations, c.op.value) == c.reservationBefore
    requires forall k :: k != c.sku ==> Lookup(l.stocks, k) == Lookup(memory.stocks, k)
    requires forall o :: c.op != Some(o) ==> Lookup(l.reservations, o) == Lookup(memory.reservations, o)
    ensures Balanced(l)
  {
    var op, r := c.op.value, c.reservationAfter.value;
    assert memory.reservations == l.reservations[op := r] by {
      forall k ensures Lookup(memory.reservations, k) == Lookup(l.reservations[op := r], k) {
        if k != op { assert Lookup(l.reservations, k) == Lookup(memory.reservations, k); }
      }
      SameLookups(memory.reservations, l.reservations[op := r]);
    }
    forall k | k in l.stocks
      ensures k in memory.stocks && (k != c.sku ==> l.stocks[k] == memory.stocks[k])
    {
      if k != c.sku { assert Lookup(l.stocks, k) == Lookup(memory.stocks, k); }
    }
    forall sku | sku in l.stocks
      ensures l.stocks[sku].reserved == Total(l.reservations, sku, Reserved)
      ensures l.stocks[sku].sold == Total(l.reservations, sku, Confirmed)
    {
      TotalUpdate(l.reservations, op, r, sku, Reserved);
      TotalUpdate(l.reservations, op, r, sku, Confirmed);
    }
    forall o | o in l.reservations ensures l.reservations[o].sku in l.stocks && l.reservations[o].quantity > 0 {
      if o != op { assert Lookup(l.reservations, o) == Lookup(memory.reservations, o); }
      var k := l.reservations[o].sku;
      if k != c.sku { assert Lookup(l.stocks, k) == Lookup(memory.stocks, k); }
    }
  }

  lemma FailedConserves(w: World, m: Machine, h: nat)
    requires Inv(w, m) && h in m.pending
    ensures var m' := Do(w, m, Failed(h));
            Conserved(m', m'.memory) && Small(m'.memory)
  {
    hide Balanced, Legal, Undoable, Agree, Undo;
    var c := m.pending[h];
    var m' := Do(w, m, Failed(h));
    UndoRestores(w, m, h);
    assert Waiting(w, m, h);
    forall k | k in m'.memory.stocks
      ensures k in m'.initial && m'.memory.stocks[k].Sum() == m'.initial[k] && m'.initial[k] <= INT64_MAX
    {
      if k == c.sku {
        assert Lookup(m.durable.stocks, k) == Lookup(m'.memory.stocks, k);
      } else {
        assert Lookup(m.memory.stocks, k) == Lookup(m'.memory.stocks, k);
      }
    }
    forall o | o in m'.memory.reservations ensures m'.memory.reservations[o].quantity <= INT64_MAX {
      if c.op == Some(o) {
        assert Lookup(m.durable.reservations, o) == Lookup(m'.memory.reservations, o);
      } else {
        assert Lookup(m.memory.reservations, o) == Lookup(m'.memory.reservations, o);
      }
    }
  }

  lemma FailedWaiting(w: World, m: Machine, h: nat)
    requires Inv(w, m) && h in m.pending
    ensures var m' := Do(w, m, Failed(h));
            (forall g :: g in m'.pending ==> Waiting(w, m', g)) && Agree(w, m')
  {
    hide Balanced, Legal, Undoable, Undo;
    var c := m.pending[h];
    var m' := Do(w, m, Failed(h));
    UndoRestores(w, m, h);
    assert Waiting(w, m, h);
    forall g | g in m'.pending ensures Waiting(w, m', g) {
      assert Waiting(w, m, g);
      if c.op.Some? && m.pending[g].op == c.op { OneWaits(w, m, g, h); }
    }
    forall k | !StockWaits(w, m', k) ensures Lookup(m'.memory.stocks, k) == Lookup(m'.durable.stocks, k) {
      if k != c.sku { assert !StockWaits(w, m, k); }
    }
    forall o | !OpWaits(m', o) ensures Lookup(m'.memory.reservations, o) == Lookup(m'.durable.reservations, o) {
      if c.op != Some(o) { OnlyOneLess(m, m', h, o); }
    }
  }

  lemma FailedKeepsInv(w: World, m: Machine, h: nat)
    requires Inv(w, m) && h in m.pending
    ensures Inv(w, Do(w, m, Failed(h)))
  {
    hide Balanced, Conserved, Small, Waiting, Agree, Undo;
    BalancedWithout(w, m, h, Undo(m.memory, m.pending[h]));
    FailedConserves(w, m, h);
    FailedWaiting(w, m, h);
    assert Conserved(Do(w, m, Failed(h)), m.durable) by { ConservedBy(m, Do(w, m, Failed(h)), m.durable); }
  }

  lemma ConservedBy(m: Machine, m': Machine, l: Ledger)
    requires Conserved(m, l) && m.initial == m'.initial
    ensures Conserved(m', l)
  {}

  lemma FreshInv(w: World)
    ensures Inv(w, Fresh())
  {}

  /** Every step of every thread keeps the invariant. */
  lemma StepKeepsInv(w: World, m: Machine, e: Event)
    requires Inv(w, m) && Enabled(w, m, e)
    ensures Inv(w, Do(w, m, e))
  {
    hide Balanced, Conserved, Waiting, Agree, Attempt, Undo;
    match e
    case Look(t, call) => LookKeepsInv(w, m, e);
    case Resume(t) =>
      if Attempt(m.memory, m.looked[t].0, m.looked[t].1).Changed? { BeginKeepsInv(w, m, m.looked[t].0, m.looked[t].1); }
      ForgetKeepsInv(w, Begin(w, m, m.looked[t].0, m.looked[t].1), m, t);
    case Start(call) =>
      BeginKeepsInv(w, m, call, CallSku(call));
    case Persisted(h) => PersistedKeepsInv(w, m, h);
    case Failed(h) => FailedKeepsInv(w, m, h);
    case Restart(orphans) => RestartKeepsInv(w, m, orphans);
  }

  /** What a restart finds in storage is balanced, and so it is after the orphans were released. */
  lemma RestartKeepsInv(w: World, m: Machine, orphans: seq<Op>)
    requires Inv(w, m) && AllHeld(m.durable, orphans) && PlainLedger(m.durable)
    ensures Inv(w, Do(w, m, Restart(orphans)))
  {
    hide Balanced, Waiting;
    ReleaseAllBalanced(m.durable, orphans);
    var m' := Do(w, m, Restart(orphans));
    assert forall k :: !StockWaits(w, m', k);
    assert forall o :: !OpWaits(m', o);
  }

  lemma LookKeepsInv(w: World, m: Machine, e: Event)
    requires Inv(w, m) && Enabled(w, m, e) && e.Look?
    ensures Inv(w, Do(w, m, e))
  {
    hide Balanced, Undoable, Legal;
    forall h | h in m.pending ensures Waiting(w, Do(w, m, e), h) { assert Waiting(w, m, h); }
    assert forall k :: StockWaits(w, Do(w, m, e), k) == StockWaits(w, m, k);
    assert forall o :: OpWaits(Do(w, m, e), o) == OpWaits(m, o);
  }

  lemma ForgetKeepsInv(w: World, b: Machine, m: Machine, t: nat)
    requires Inv(w, b) && b.looked == m.looked
    ensures Inv(w, b.(looked := m.looked - {t}))
  {
    hide Balanced, Undoable, Legal;
    var b' := b.(looked := m.looked - {t});
    forall h | h in b.pending ensures Waiting(w, b', h) { assert Waiting(w, b, h); }
    assert forall k :: StockWaits(w, b', k) == StockWaits(w, b, k);
    assert forall o :: OpWaits(b', o) == OpWaits(b, o);
  }

  // ----- Runs -----

  predicate CanRun(w: World, m: Machine, es: seq<Event>)
    decreases |es|
  {
    es == [] || (Enabled(w, m, es[0]) && CanRun(w, Do(w, m, es[0]), es[1..]))
  }

  function Run(w: World, m: Machine, es: seq<Event>): Machine
    requires CanRun(w, m, es)
    decreases |es|
  {
    if es == [] then m else Run(w, Do(w, m, es[0]), es[1..])
  }

  lemma {:induction false} RunKeepsInv(w: World, m: Machine, es: seq<Event>)
    requires Inv(w, m) && CanRun(w, m, es)
    ensures Inv(w, Run(w, m, es))
    decreases |es|
  {
    hide Inv, Do, Possible, Careful;
    if es != [] {
      StepKeepsInv(w, m, es[0]);
      RunKeepsInv(w, Do(w, m, es[0]), es[1..]);
    }
  }

  /** Every counter of a SKU that was added with a 64-bit quantity stays a non-negative 64-bit value. */
  predicate InRange(s: Stock) {
    0 <= s.available <= INT64_MAX && 0 <= s.reserved <= INT64_MAX && 0 <= s.sold <= INT64_MAX
  }

  /**
   In every interleaving, with any writes failing and any restarts: memory passes the repository's invariant check, no
   counter leaves its 64 bits, and available + reserved + sold is what the SKU was added with. The same
   holds of storage, so of what a crash at this point would leave.
   */
  lemma EveryRunBalances(w: World, es: seq<Event>)
    requires CanRun(w, Fresh(), es)
    ensures var m := Run(w, Fresh(), es);
            && Balanced(m.memory) && Balanced(m.durable)
            && (forall sku :: sku in m.memory.stocks ==>
                  sku in m.initial && m.memory.stocks[sku].Sum() == m.initial[sku] && InRange(m.memory.stocks[sku]))
            && (forall sku :: sku in m.durable.stocks ==>
                  sku in m.initial && m.durable.stocks[sku].Sum() == m.initial[sku] && InRange(m.durable.stocks[sku]))
            && (m.pending == map[] ==> m.memory == m.durable)
  {
    hide CanRun, Run, Total, Agree, Waiting, Small;
    FreshInv(w);
    RunKeepsInv(w, Fresh(), es);
    var m := Run(w, Fresh(), es);
    if m.pending == map[] { QuietAgrees(w, m); }
  }

  // ----- Runs that are not careful -----

  predicate MayRun(w: World, m: Machine, es: seq<Event>)
    decreases |es|
  {
    es == [] || (Possible(w, m, es[0]) && MayRun(w, Do(w, m, es[0]), es[1..]))
  }

  /** Memory is balanced at every point of the run. */
  ghost predicate AlwaysBalanced(w: World, m: Machine, es: seq<Event>)
    requires MayRun(w, m, es)
    decreases |es|
  {
    Balanced(m.memory) && (es != [] ==> AlwaysBalanced(w, Do(w, m, es[0]), es[1..]))
  }

  lemma CarelessBreaks(w: World, m: Machine, e: Event)
    requires Inv(w, m) && Possible(w, m, e) && !Careful(m, e)
    ensures !Balanced(Do(w, m, e).memory)
  {
    hide Balanced, Conserved, Waiting, Agree, Small, Land;
    var (call, sku) := m.looked[e.thread];
    assert !NamesSku(call);
    ChangeShape(m.memory, call, sku);
    StockThere(m.memory, call, sku);
    ResumedCallBalancedIff(m.memory, call, sku);
  }

  lemma StockThere(l: Ledger, call: Call, sku: Sku)
    requires Attempt(l, call, sku).Changed? && !NamesSku(call)
    ensures sku in l.stocks && call.op in l.reservations
  {}

  lemma {:induction false} BalancedIffCareful(w: World, m: Machine, es: seq<Event>)
    requires Inv(w, m) && MayRun(w, m, es)
    ensures AlwaysBalanced(w, m, es) <==> CanRun(w, m, es)
    decreases |es|
  {
    hide Possible, Careful, Do, Balanced, Conserved, Waiting, Agree, Small;
    if es != [] {
      if Careful(m, es[0]) {
        StepKeepsInv(w, m, es[0]);
        hide Inv;
        BalancedIffCareful(w, Do(w, m, es[0]), es[1..]);
      } else {
        CarelessBreaks(w, m, es[0]);
      }
    }
  }

  /**
   In every interleaving, with any writes failing, any restarts and any calls that go on with what they looked up
   before: memory is balanced at every point exactly when each call that changes it finds its reservation still on the SKU
   it saw and, to roll a release back, the stock.
   */
  lemma EveryRunBalancesIff(w: World, es: seq<Event>)
    requires MayRun(w, Fresh(), es)
    ensures AlwaysBalanced(w, Fresh(), es) <==> CanRun(w, Fresh(), es)
  {
    hide AlwaysBalanced, CanRun, MayRun;
    FreshInv(w);
    BalancedIffCareful(w, Fresh(), es);
  }

  lemma QuietAgrees(w: World, m: Machine)
    requires Agree(w, m) && m.pending == map[]
    ensures m.memory == m.durable
  {
    forall k ensures Lookup(m.memory.stocks, k) == Lookup(m.durable.stocks, k) { assert !StockWaits(w, m, k); }
    forall o ensures Lookup(m.memory.reservations, o) == Lookup(m.durable.reservations, o) { assert !OpWaits(m, o); }
    SameLookups(m.memory.stocks, m.durable.stocks);
    SameLookups(m.memory.reservations, m.durable.reservations);
  }
}
