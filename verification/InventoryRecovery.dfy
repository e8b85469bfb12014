/** What a restart finds in storage, and the release of reservations whose order never became durable. */
module InventoryRecovery {
  import opened Common
  import opened Inventory
  import opened InventoryCodec
  import opened InventoryRuns
  import opened InventoryOrphans

  // ----- Restore -----

  /** Numbers that fit the format, and SKUs that do not contain its separator. */
  predicate Readable(l: Ledger) {
    && (forall sku :: sku in l.stocks ==> InRange(l.stocks[sku]))
    && (forall op :: op in l.reservations ==>
          '|' !in l.reservations[op].sku && IsInt64(l.reservations[op].quantity))
  }

  predicate DecodesStock(store: Store, stocks: map<Sku, Stock>, sku: Sku) {
    if sku in stocks then StockKey(sku) in store && DecodeStock(store[StockKey(sku)]) == Some(stocks[sku])
    else StockKey(sku) !in store
  }

  predicate DecodesReservation(store: Store, reservations: map<Op, Reservation>, op: Op) {
    if op in reservations
    then ReservationKey(op) in store && DecodeReservation(store[ReservationKey(op)]) == Some(reservations[op])
    else ReservationKey(op) !in store
  }

  /** The ledger is what the stored values decode to. */
  ghost predicate Decodes(store: Store, l: Ledger) {
    && (forall sku :: DecodesStock(store, l.stocks, sku))
    && (forall op :: DecodesReservation(store, l.reservations, op))
  }

  lemma HeldStockDecodes(store: Store, l: Ledger, sku: Sku)
    requires HoldsStock(store, l, sku) && Readable(l)
    ensures DecodesStock(store, l.stocks, sku)
  {
    hide EncodeStock, DecodeStock, StockKey;
    if sku in l.stocks { DecodeStockInverts(l.stocks[sku]); }
  }

  lemma HeldReservationDecodes(store: Store, l: Ledger, op: Op)
    requires HoldsReservation(store, l, op) && Readable(l)
    ensures DecodesReservation(store, l.reservations, op)
  {
    hide EncodeReservation, DecodeReservation, ReservationKey;
    if op in l.reservations { DecodeReservationInvertsIff(l.reservations[op]); }
  }

  /** A readable ledger that storage holds is what storage decodes to. */
  lemma HeldLedgerDecodes(store: Store, l: Ledger)
    requires Holds(store, l) && Readable(l)
    ensures Decodes(store, l)
  {
    hide HoldsStock, HoldsReservation, DecodesStock, DecodesReservation, Readable;
    forall sku ensures DecodesStock(store, l.stocks, sku) { HeldStockDecodes(store, l, sku); }
    forall op ensures DecodesReservation(store, l.reservations, op) { HeldReservationDecodes(store, l, op); }
  }

  /** And storage decodes to no other. */
  lemma DecodedLedgerIsUnique(store: Store, a: Ledger, b: Ledger)
    requires Decodes(store, a) && Decodes(store, b)
    ensures a == b
  {
    hide DecodeStock, DecodeReservation, StockKey, ReservationKey;
    forall sku ensures Lookup(a.stocks, sku) == Lookup(b.stocks, sku) {
      assert DecodesStock(store, a.stocks, sku) && DecodesStock(store, b.stocks, sku);
    }
    forall op ensures Lookup(a.reservations, op) == Lookup(b.reservations, op) {
      assert DecodesReservation(store, a.reservations, op) && DecodesReservation(store, b.reservations, op);
    }
    SameLookups(a.stocks, b.stocks);
    SameLookups(a.reservations, b.reservations);
  }

  lemma KeysInjective()
    ensures forall a, b :: StockKey(a) == StockKey(b) ==> a == b
    ensures forall a, b :: ReservationKey(a) == ReservationKey(b) ==> a == b
    ensures forall sku, op :: StockKey(sku) != ReservationKey(op)
  {
    forall a, b | StockKey(a) == StockKey(b) ensures a == b { KeysApart(a, ""); KeysApart(b, ""); }
    forall a, b | ReservationKey(a) == ReservationKey(b) ensures a == b { KeysApart("", a); KeysApart("", b); }
    forall sku, op ensures StockKey(sku) != ReservationKey(op) { KeysApart(sku, op); }
  }

  function KeysWith(store: Store, prefix: string): set<string> {
    set k | k in store && HasPrefix(k, prefix)
  }

  lemma StockKeyOf(key: string)
    requires HasPrefix(key, STOCK_PREFIX)
    ensures key == StockKey(key[|STOCK_PREFIX|..])
  {}

  lemma ReservationKeyOf(key: string)
    requires HasPrefix(key, RESERVATION_PREFIX)
    ensures key == ReservationKey(key[|RESERVATION_PREFIX|..])
  {}

  /** The scan of the stock keys, in whatever order the engine yields them. */
  method RestoreStocks(store: Store) returns (r: Option<map<Sku, Stock>>)
    ensures r.Some? ==> forall sku :: DecodesStock(store, r.value, sku)
    ensures r.None? ==> exists sku :: StockKey(sku) in store && DecodeStock(store[StockKey(sku)]).None?
  {
    var stocks: map<Sku, Stock> := map[];
    var todo := KeysWith(store, STOCK_PREFIX);
    forall sku | StockKey(sku) in store ensures StockKey(sku) in todo { KeysApart(sku, ""); }
    hide DecodeStock, StockKey;
    while todo != {}
      invariant todo <= KeysWith(store, STOCK_PREFIX)
      invariant forall sku :: StockKey(sku) in todo || DecodesStock(store, stocks, sku)
      invariant forall sku :: StockKey(sku) in todo ==> sku !in stocks
      decreases |todo|
    {
      var key :| key in todo;
      var sku := key[|STOCK_PREFIX|..];
      StockKeyOf(key);
      var stock := DecodeStock(store[key]);
      if stock.None? {
        assert StockKey(sku) in store && DecodeStock(store[StockKey(sku)]).None?;
        return None;
      }
      KeysInjective();
      todo := todo - {key};
      ghost var before := stocks;
      stocks := stocks[sku := stock.value];
      forall other ensures StockKey(other) in todo || DecodesStock(store, stocks, other) {
        if other != sku && StockKey(other) !in todo { assert DecodesStock(store, before, other); }
      }
    }
    r := Some(stocks);
  }

  method RestoreReservations(store: Store) returns (r: Option<map<Op, Reservation>>)
    ensures r.Some? ==> forall op :: DecodesReservation(store, r.value, op)
    ensures r.None? ==> exists op :: ReservationKey(op) in store && DecodeReservation(store[ReservationKey(op)]).None?
  {
    var reservations: map<Op, Reservation> := map[];
    var todo := KeysWith(store, RESERVATION_PREFIX);
    forall op | ReservationKey(op) in store ensures ReservationKey(op) in todo { KeysApart("", op); }
    hide DecodeReservation, ReservationKey;
    while todo != {}
      invariant todo <= KeysWith(store, RESERVATION_PREFIX)
      invariant forall op :: ReservationKey(op) in todo || DecodesReservation(store, reservations, op)
      invariant forall op :: ReservationKey(op) in todo ==> op !in reservations
      decreases |todo|
    {
      var key :| key in todo;
      var op := key[|RESERVATION_PREFIX|..];
      ReservationKeyOf(key);
      var reservation := DecodeReservation(store[key]);
      if reservation.None? {
        assert ReservationKey(op) in store && DecodeReservation(store[ReservationKey(op)]).None?;
        return None;
      }
      KeysInjective();
      todo := todo - {key};
      ghost var before := reservations;
      reservations := reservations[op := reservation.value];
      forall other ensures ReservationKey(other) in todo || DecodesReservation(store, reservations, other) {
        if other != op && ReservationKey(other) !in todo { assert DecodesReservation(store, before, other); }
      }
    }
    r := Some(reservations);
  }

  /** Both scans: a readable ledger in storage is restored exactly. */
  method Restore(store: Store) returns (r: Option<Ledger>)
    ensures r.Some? ==> Decodes(store, r.value)
    ensures forall l :: Holds(store, l) && Readable(l) ==> r == Some(l)
  {
    hide Readable, DecodesStock, DecodesReservation, HoldsStock, HoldsReservation, DecodeStock, DecodeReservation,
         StockKey, ReservationKey;
    var stocks := RestoreStocks(store);
    var reservations := RestoreReservations(store);
    r := if stocks.Some? && reservations.Some? then Some(Ledger(stocks.value, reservations.value)) else None;
    if r.Some? { assert Decodes(store, r.value); }
    forall l | Holds(store, l) && Readable(l) ensures r == Some(l) {
      HeldLedgerDecodes(store, l);
      if r.Some? { DecodedLedgerIsUnique(store, l, r.value); } else { DecodedIsReadable(store, l); }
    }
  }

  lemma DecodedIsReadable(store: Store, l: Ledger)
    requires Decodes(store, l)
    ensures forall sku :: StockKey(sku) in store ==> DecodeStock(store[StockKey(sku)]).Some?
    ensures forall op :: ReservationKey(op) in store ==> DecodeReservation(store[ReservationKey(op)]).Some?
  {
    hide DecodeStock, DecodeReservation, StockKey, ReservationKey;
    forall sku | StockKey(sku) in store ensures DecodeStock(store[StockKey(sku)]).Some? {
      assert DecodesStock(store, l.stocks, sku);
    }
    forall op | ReservationKey(op) in store ensures DecodeReservation(store[ReservationKey(op)]).Some? {
      assert DecodesReservation(store, l.reservations, op);
    }
  }

  // ----- Storage follows the run -----

  /** The one batch a call writes: its stock record and, except for a new SKU, its reservation record. */
  function WriteChange(store: Store, c: Change): Store {
    var s := store[StockKey(c.sku) := EncodeStock(c.after)];
    if c.op.Some? && c.reservationAfter.Some?
    then s[ReservationKey(c.op.value) := EncodeReservation(c.reservationAfter.value)] else s
  }

  lemma WriteLands(store: Store, l: Ledger, c: Change)
    requires Holds(store, l)
    ensures Holds(WriteChange(store, c), Land(l, c))
  {
    hide EncodeStock, EncodeReservation, StockKey, ReservationKey;
    KeysInjective();
    var store', l' := WriteChange(store, c), Land(l, c);
    forall sku ensures HoldsStock(store', l', sku) { assert HoldsStock(store, l, sku); }
    forall op ensures HoldsReservation(store', l', op) { assert HoldsReservation(store, l, op); }
  }

  /** The batch of an orphan release: two records per reservation, in the order of the loop. */
  function WriteReleases(store: Store, l: Ledger, ops: seq<Op>): Store
    requires AllHeld(l, ops)
    decreases |ops|
  {
    if ops == [] then store
    else
      HeldAfterRelease(l, ops);
      WriteReleases(WriteChange(store, ReleaseChange(l, ops[0])), ReleaseOne(l, ops[0]), ops[1..])
  }

  function ReleaseChange(l: Ledger, op: Op): Change
    requires Held(l, op)
  {
    Attempt(l, Release(op), l.reservations[op].sku).change
  }

  lemma {:induction false} ReleasesLand(store: Store, l: Ledger, ops: seq<Op>)
    requires AllHeld(l, ops) && Holds(store, l)
    ensures Holds(WriteReleases(store, l, ops), ReleaseAll(l, ops))
    decreases |ops|
  {
    if ops != [] {
      HeldAfterRelease(l, ops);
      assert Land(l, ReleaseChange(l, ops[0])) == ReleaseOne(l, ops[0]);
      hide Holds, WriteChange, ReleaseChange, ReleaseOne;
      WriteLands(store, l, ReleaseChange(l, ops[0]));
      ReleasesLand(WriteChange(store, ReleaseChange(l, ops[0])), ReleaseOne(l, ops[0]), ops[1..]);
    }
  }

  /** The store along a run: only a write that succeeded and a release of orphans change it. */
  function StoreAfter(w: World, m: Machine, store: Store, es: seq<Event>): Store
    requires CanRun(w, m, es)
    decreases |es|
  {
    if es == [] then store else StoreAfter(w, Do(w, m, es[0]), StoreStep(w, m, store, es[0]), es[1..])
  }

  function StoreStep(w: World, m: Machine, store: Store, e: Event): Store
    requires Enabled(w, m, e)
  {
    match e
    case Persisted(h) => WriteChange(store, m.pending[h])
    case Restart(orphans) => WriteReleases(store, m.durable, orphans)
    case _ => store
  }

  lemma StepFollows(w: World, m: Machine, store: Store, e: Event)
    requires Enabled(w, m, e) && Holds(store, m.durable)
    ensures Holds(StoreStep(w, m, store, e), Do(w, m, e).durable)
  {
    hide Holds, WriteChange, WriteReleases, ReleaseAll, Undo, Attempt;
    match e
    case Persisted(h) => WriteLands(store, m.durable, m.pending[h]);
    case Restart(orphans) => ReleasesLand(store, m.durable, orphans);
    case _ => assert Do(w, m, e).durable == m.durable;
  }

  lemma {:induction false} StoreFollows(w: World, m: Machine, store: Store, es: seq<Event>)
    requires CanRun(w, m, es) && Holds(store, m.durable)
    ensures Holds(StoreAfter(w, m, store, es), Run(w, m, es).durable)
    decreases |es|
  {
    hide Holds, StoreStep, Do, Possible, Careful;
    if es != [] {
      StepFollows(w, m, store, es[0]);
      StoreFollows(w, Do(w, m, es[0]), StoreStep(w, m, store, es[0]), es[1..]);
    }
  }

  /** Every SKU the run adds can be written into a reservation record. */
  predicate PlainSkus(es: seq<Event>) {
    forall i :: 0 <= i < |es| && es[i].Start? && es[i].call.AddSku? ==> '|' !in es[i].call.sku
  }

  lemma {:induction false} AddedArePlain(w: World, m: Machine, es: seq<Event>)
    requires CanRun(w, m, es) && PlainSkus(es) && forall sku :: sku in m.initial ==> '|' !in sku
    requires forall t :: t in m.looked ==> !NamesSku(m.looked[t].0)
    ensures forall sku :: sku in Run(w, m, es).initial ==> '|' !in sku
    decreases |es|
  {
    hide Land, Undo, ReleaseAll, PlainLedger, Attempt;
    if es != [] { AddedArePlain(w, Do(w, m, es[0]), es[1..]); }
  }

  /**
   A stop at any point of any interleaving, earlier restarts included: storage holds the ledger of the writes that
   succeeded, which is balanced and keeps the quantity each SKU was added with. Storage decodes to it, and then to no
   other, exactly when no stored reservation's SKU has the separator; that is so when no SKU is added that has it.
   */
  lemma EveryCrashRestores(w: World, es: seq<Event>)
    requires CanRun(w, Fresh(), es)
    ensures var m, store := Run(w, Fresh(), es), StoreAfter(w, Fresh(), map[], es);
            && Holds(store, m.durable) && Balanced(m.durable)
            && (forall sku :: sku in m.durable.stocks ==> sku in m.initial && m.durable.stocks[sku].Sum() == m.initial[sku])
            && (Decodes(store, m.durable) <==> PlainLedger(m.durable))
            && (PlainLedger(m.durable) ==> forall l :: Decodes(store, l) ==> l == m.durable)
            && (PlainSkus(es) ==> PlainLedger(m.durable))
  {
    hide CanRun, Run, StoreAfter, Decodes, Holds, Inv, Balanced, InRange, Readable, PlainLedger;
    var store, m := StoreAfter(w, Fresh(), map[], es), Run(w, Fresh(), es);
    assert Holds(map[], Fresh().durable) by { NothingHeld(); }
    StoreFollows(w, Fresh(), map[], es);
    FreshInv(w);
    RunKeepsInv(w, Fresh(), es);
    EveryRunBalances(w, es);
    DecodesIffPlain(w, m, store);
    if PlainSkus(es) {
      AddedArePlain(w, Fresh(), es);
      DurableIsPlain(w, m);
    }
    if PlainLedger(m.durable) {
      forall l | Decodes(store, l) ensures l == m.durable { DecodedLedgerIsUnique(store, l, m.durable); }
    }
  }

  /** What storage holds is what it decodes to exactly when its records can be told apart. */
  lemma DecodesIffPlain(w: World, m: Machine, store: Store)
    requires Inv(w, m) && Holds(store, m.durable)
    ensures Decodes(store, m.durable) <==> PlainLedger(m.durable)
  {
    if PlainLedger(m.durable) {
      DurableIsReadable(w, m);
      hide *;
      HeldLedgerDecodes(store, m.durable);
    } else {
      var op :| op in m.durable.reservations && '|' in m.durable.reservations[op].sku;
      BarIsMisread(store, m.durable, op) by { DurableIsSmall(w, m, op); HeldAt(store, m.durable, op); }
    }
  }

  lemma HeldAt(store: Store, l: Ledger, op: Op)
    requires Holds(store, l)
    ensures HoldsReservation(store, l, op)
  {
    hide HoldsReservation, HoldsStock;
  }

  lemma DurableIsSmall(w: World, m: Machine, op: Op)
    requires Inv(w, m) && op in m.durable.reservations
    ensures IsInt64(m.durable.reservations[op].quantity)
  {
    hide Agree, Waiting, Total, Conserved;
  }

  lemma BarIsMisread(store: Store, l: Ledger, op: Op)
    requires HoldsReservation(store, l, op) && op in l.reservations && '|' in l.reservations[op].sku
    requires IsInt64(l.reservations[op].quantity)
    ensures !Decodes(store, l)
  {
    hide EncodeReservation, DecodeReservation, ReservationKey, DecodesStock;
    DecodeReservationInvertsIff(l.reservations[op]);
    assert !DecodesReservation(store, l.reservations, op);
  }

  lemma NothingHeld()
    ensures Holds(map[], Fresh().durable)
  {}

  lemma DurableIsReadable(w: World, m: Machine)
    requires Inv(w, m) && PlainLedger(m.durable)
    ensures Readable(m.durable)
  {
    hide Agree, Waiting, Total;
    assert Small(m.durable) && Balanced(m.durable) && Conserved(m, m.durable);
  }

  lemma DurableIsPlain(w: World, m: Machine)
    requires Inv(w, m) && forall sku :: sku in m.initial ==> '|' !in sku
    ensures PlainLedger(m.durable)
  {
    hide Agree, Waiting, Total, Small;
    assert Balanced(m.durable) && Conserved(m, m.durable);
  }

  // ----- The undo of a failed release -----

  /** What the loop remembers of each reservation it releases. */
  datatype Saved = Saved(op: Op, sku: Sku, stock: Stock, reservation: Reservation)

  function SavedOf(l: Ledger, ops: seq<Op>): seq<Saved>
    requires AllHeld(l, ops)
    decreases |ops|
  {
    if ops == [] then []
    else
      var r := l.reservations[ops[0]];
      HeldAfterRelease(l, ops);
      [Saved(ops[0], r.sku, l.stocks[r.sku], r)] + SavedOf(ReleaseOne(l, ops[0]), ops[1..])
  }

  /** The undo loop: first to last, as the source runs it. */
  function UndoForward(l: Ledger, saved: seq<Saved>): Ledger
    decreases |saved|
  {
    if saved == [] then l
    else
      UndoForward(Ledger(l.stocks[saved[0].sku := saved[0].stock],
                         l.reservations[saved[0].op := saved[0].reservation]), saved[1..])
  }

  predicate OnePerSku(l: Ledger, ops: seq<Op>)
    requires AllHeld(l, ops)
  {
    forall i, j :: 0 <= i < j < |ops| ==> l.reservations[ops[i]].sku != l.reservations[ops[j]].sku
  }

  /** The stock the undo leaves for `sku`: that of the last release of the SKU, if there was one. */
  function Undone(l: Ledger, ops: seq<Op>, sku: Sku): Option<Stock>
    requires AllHeld(l, ops)
    decreases |ops|
  {
    if ops == [] then None
    else
      HeldAfterRelease(l, ops);
      var later := Undone(ReleaseOne(l, ops[0]), ops[1..], sku);
      if later.Some? then later
      else if l.reservations[ops[0]].sku == sku then Some(l.stocks[sku]) else None
  }

  lemma {:induction false} UndoForwardIs(x: Ledger, l: Ledger, ops: seq<Op>)
    requires AllHeld(l, ops)
    ensures var u := UndoForward(x, SavedOf(l, ops));
            && (forall sku :: Lookup(u.stocks, sku)
                              == if Undone(l, ops, sku).Some? then Undone(l, ops, sku) else Lookup(x.stocks, sku))
            && (forall op :: Lookup(u.reservations, op)
                             == if op in ops then Lookup(l.reservations, op) else Lookup(x.reservations, op))
    decreases |ops|
  {
    if ops != [] {
      HeldAfterRelease(l, ops);
      var l' := ReleaseOne(l, ops[0]);
      var saved := SavedOf(l, ops);
      var x' := Ledger(x.stocks[saved[0].sku := saved[0].stock], x.reservations[saved[0].op := saved[0].reservation]);
      assert saved[1..] == SavedOf(l', ops[1..]);
      UndoForwardIs(x', l', ops[1..]);
      assert ops == [ops[0]] + ops[1..];
    }
  }

  /** The undone stock is the original one exactly when the SKU was released once. */
  lemma {:induction false} UndoneStock(l: Ledger, ops: seq<Op>, sku: Sku)
    requires Balanced(l) && AllHeld(l, ops) && sku in l.stocks
    ensures Undone(l, ops, sku).None? <==> forall i :: 0 <= i < |ops| ==> l.reservations[ops[i]].sku != sku
    ensures Undone(l, ops, sku).Some? ==> Undone(l, ops, sku).value.available >= l.stocks[sku].available
    ensures Undone(l, ops, sku) == Some(l.stocks[sku]) || Undone(l, ops, sku).None?
            <==> forall i, j :: 0 <= i < j < |ops| ==>
                   !(l.reservations[ops[i]].sku == sku && l.reservations[ops[j]].sku == sku)
    decreases |ops|
  {
    hide Balanced;
    if ops != [] {
      HeldAfterRelease(l, ops);
      ReleaseIsLegal(l, ops[0]);
      var l' := ReleaseOne(l, ops[0]);
      UndoneStock(l', ops[1..], sku);
      assert l.reservations[ops[0]].quantity > 0 by { QuantityPositive(l, ops[0]); }
      forall i | 0 < i < |ops| ensures l'.reservations[ops[1..][i - 1]].sku == l.reservations[ops[i]].sku {
        assert ops[1..][i - 1] == ops[i] && ops[0] != ops[i];
      }
    }
  }

  lemma QuantityPositive(l: Ledger, op: Op)
    requires Balanced(l) && op in l.reservations
    ensures l.reservations[op].quantity > 0
  {}

  /**
   When the write of the released reservations fails, the undo gives the ledger back as it was if and only
   if no two of them belong to one SKU.
   */
  lemma OrphanUndoExactIff(l: Ledger, ops: seq<Op>)
    requires Balanced(l) && AllHeld(l, ops)
    ensures UndoForward(ReleaseAll(l, ops), SavedOf(l, ops)) == l <==> OnePerSku(l, ops)
  {
    hide Balanced, UndoForward, SavedOf, ReleaseAll, Undone;
    var x := ReleaseAll(l, ops);
    var u := UndoForward(x, SavedOf(l, ops));
    ReleaseAllBalanced(l, ops);
    UndoForwardIs(x, l, ops);
    forall op ensures Lookup(u.reservations, op) == Lookup(l.reservations, op) {
      if op in ops { assert Held(l, op); }
    }
    SameLookups(u.reservations, l.reservations);
    if OnePerSku(l, ops) {
      forall sku ensures Lookup(u.stocks, sku) == Lookup(l.stocks, sku) { UndoneOne(l, ops, sku); }
      SameLookups(u.stocks, l.stocks);
    } else {
      var i, j :| 0 <= i < j < |ops| && l.reservations[ops[i]].sku == l.reservations[ops[j]].sku;
      var sku := l.reservations[ops[i]].sku;
      assert Held(l, ops[i]);
      UndoneStock(l, ops, sku);
    }
  }

  lemma UndoneOne(l: Ledger, ops: seq<Op>, sku: Sku)
    requires Balanced(l) && AllHeld(l, ops) && OnePerSku(l, ops)
    ensures Undone(l, ops, sku).Some? ==> sku in l.stocks && Undone(l, ops, sku).value == l.stocks[sku]
    ensures Undone(l, ops, sku).None? ==> Lookup(ReleaseAll(l, ops).stocks, sku) == Lookup(l.stocks, sku)
    decreases |ops|
  {
    hide Balanced;
    if ops != [] {
      HeldAfterRelease(l, ops);
      ReleaseIsLegal(l, ops[0]);
      var l' := ReleaseOne(l, ops[0]);
      forall i, j | 0 <= i < j < |ops[1..]| ensures l'.reservations[ops[1..][i]].sku != l'.reservations[ops[1..][j]].sku {
        assert l.reservations[ops[i + 1]].sku != l.reservations[ops[j + 1]].sku;
        assert ops[0] != ops[i + 1] && ops[0] != ops[j + 1];
      }
      UndoneOne(l', ops[1..], sku);
      if sku == l.reservations[ops[0]].sku { NotReleasedLater(l', ops[1..], sku, l, ops); }
    }
  }

  lemma NotReleasedLater(l': Ledger, rest: seq<Op>, sku: Sku, l: Ledger, ops: seq<Op>)
    requires ops != [] && AllHeld(l, ops) && OnePerSku(l, ops) && rest == ops[1..]
    requires l' == ReleaseOne(l, ops[0]) && AllHeld(l', rest) && sku == l.reservations[ops[0]].sku
    requires Balanced(l')
    ensures Undone(l', rest, sku).None?
  {
    hide Balanced;
    UndoneStock(l', rest, sku);
    forall i | 0 <= i < |rest| ensures l'.reservations[rest[i]].sku != sku {
      assert l.reservations[ops[0]].sku != l.reservations[ops[i + 1]].sku;
      assert ops[0] != ops[i + 1];
    }
  }
}
