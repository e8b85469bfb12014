/** The inventory object: its calls as the source runs them, each as one uninterrupted call. */
module InventoryService {
  import opened Common
  import opened Inventory
  import opened InventoryCodec
  import opened InventoryOrphans
  import opened InventoryRecovery

  /** What a call may do: answer, or change memory and storage together, or leave both as they were. */
  ghost predicate Answers(l: Ledger, store: Store, call: Call, sku: Sku, writes: bool,
                          status: Status, l': Ledger, store': Store) {
    match Attempt(l, call, sku)
    case Answer(s) => status == s && l' == l && store' == store
    case Changed(c) =>
      if writes then status == Ok && l' == Land(l, c) && store' == WriteChange(store, c)
      else status == Internal && l' == l && store' == store
  }

  /** One row moved by these amounts, available, reserved and sold; all others as they were. */
  ghost predicate Moved(before: map<Sku, Stock>, after: map<Sku, Stock>, sku: Sku, available: int, reserved: int, sold: int) {
    && sku in before && after.Keys == before.Keys
    && after[sku].available == before[sku].available + available
    && after[sku].reserved == before[sku].reserved + reserved
    && after[sku].sold == before[sku].sold + sold
    && forall other :: other in before && other != sku ==> after[other] == before[other]
  }

  class Service {
    var stocks: map<Sku, Stock>
    var reservations: map<Op, Reservation>
    var store: Store

    ghost function View(): Ledger
      reads this
    {
      Ledger(stocks, reservations)
    }

    constructor ()
      ensures View() == Ledger(map[], map[]) && store == map[]
    {
      stocks, reservations, store := map[], map[], map[];
    }

    /** One batch of two records; `writes` says whether the engine takes it. */
    method Persist(sku: Sku, stock: Stock, op: Op, reservation: Reservation, writes: bool) returns (status: Status)
      modifies this`store
      ensures status == if writes then Ok else Internal
      ensures store == if writes
                       then old(store)[StockKey(sku) := EncodeStock(stock)][ReservationKey(op) := EncodeReservation(reservation)]
                       else old(store)
    {
      if !writes { return Internal; }
      store := store[StockKey(sku) := EncodeStock(stock)];
      store := store[ReservationKey(op) := EncodeReservation(reservation)];
      return Ok;
    }

    method AddSku(sku: Sku, quantity: int, writes: bool) returns (status: Status)
      modifies this
      ensures !GoodArguments(Call.AddSku(sku, quantity)) ==> status == InvalidArgument && unchanged(this)
      ensures GoodArguments(Call.AddSku(sku, quantity)) ==>
                Answers(old(View()), old(store), Call.AddSku(sku, quantity), sku, writes, status, View(), store)
      ensures status == if sku == "" || quantity <= 0 then InvalidArgument else if sku in old(stocks) then AlreadyExists
                        else if writes then Ok else Internal
      ensures reservations == old(reservations)
      ensures stocks == if status == Ok then old(stocks)[sku := Stock(quantity, 0, 0)] else old(stocks)
    {
      if sku == "" || quantity <= 0 { return InvalidArgument; }
      if sku in stocks { return AlreadyExists; }
      stocks := stocks[sku := Stock(quantity, 0, 0)];
      if !writes {
        stocks := stocks - {sku};
        assert stocks == old(stocks);
        return Internal;
      }
      store := store[StockKey(sku) := EncodeStock(Stock(quantity, 0, 0))];
      return Ok;
    }

    method ReserveStock(sku: Sku, quantity: int, op: Op, writes: bool) returns (status: Status)
      modifies this
      ensures !GoodArguments(Reserve(sku, quantity, op)) ==> status == InvalidArgument && unchanged(this)
      ensures GoodArguments(Reserve(sku, quantity, op)) ==>
                Answers(old(View()), old(store), Reserve(sku, quantity, op), sku, writes, status, View(), store)
      ensures op in old(reservations) && status != InvalidArgument ==>
                var r := old(reservations)[op];
                unchanged(this) && status == if r.sku == sku && r.quantity == quantity then Ok else FailedPrecondition
      ensures op !in old(reservations) && status != InvalidArgument ==>
                status == if sku !in old(stocks) then NotFound else if old(stocks)[sku].available < quantity then ResourceExhausted
                          else if writes then Ok else Internal
      ensures op !in old(reservations) && status == Ok ==>
                && Moved(old(stocks), stocks, sku, -quantity, quantity, 0)
                && reservations == old(reservations)[op := Reservation(sku, quantity, Reserved)]
      ensures status != Ok ==> unchanged(this)
    {
      hide StockKey, ReservationKey, EncodeStock, EncodeReservation;
      if sku == "" || quantity <= 0 || op == "" { return InvalidArgument; }
      if op in reservations {
        return if reservations[op].sku == sku && reservations[op].quantity == quantity then Ok else FailedPrecondition;
      }
      if sku !in stocks { return NotFound; }
      var stock := stocks[sku];
      if stock.available < quantity { return ResourceExhausted; }
      stock := Stock(stock.available - quantity, stock.reserved + quantity, stock.sold);
      var reservation := Reservation(sku, quantity, Reserved);
      stocks, reservations := stocks[sku := stock], reservations[op := reservation];
      status := Persist(sku, stock, op, reservation, writes);
      if status != Ok {
        stocks := stocks[sku := Stock(stock.available + quantity, stock.reserved - quantity, stock.sold)];
        reservations := reservations - {op};
        assert stocks == old(stocks) && reservations == old(reservations);
      }
    }

    method ConfirmStock(op: Op, writes: bool) returns (status: Status)
      modifies this
      ensures op !in old(reservations) ==> status == NotFound && unchanged(this)
      ensures op in old(reservations) ==>
                Answers(old(View()), old(store), Confirm(op), old(reservations)[op].sku, writes, status, View(), store)
      ensures op in old(reservations) ==>
                var r := old(reservations)[op];
                && status == (if r.sku !in old(stocks) then NotFound else if r.state == Confirmed then Ok
                              else if r.state != Reserved then FailedPrecondition else if writes then Ok else Internal)
                && (status == Ok && r.state == Reserved ==>
                      && Moved(old(stocks), stocks, r.sku, 0, -r.quantity, r.quantity)
                      && reservations == old(reservations)[op := r.(state := Confirmed)])
                && (status != Ok || r.state != Reserved ==> unchanged(this))
    {
      hide StockKey, ReservationKey, EncodeStock, EncodeReservation;
      if op !in reservations { return NotFound; }
      var previous := reservations[op];
      var sku := previous.sku;
      if sku !in stocks { return NotFound; }
      if previous.state == Confirmed { return Ok; }
      if previous.state == Released { return FailedPrecondition; }
      var previousStock := stocks[sku];
      var stock := Stock(previousStock.available, previousStock.reserved - previous.quantity,
                         previousStock.sold + previous.quantity);
      var reservation := previous.(state := Confirmed);
      stocks, reservations := stocks[sku := stock], reservations[op := reservation];
      status := Persist(sku, stock, op, reservation, writes);
      if status != Ok {
        stocks, reservations := stocks[sku := previousStock], reservations[op := previous];
        assert stocks == old(stocks) && reservations == old(reservations);
      }
    }

    method ReleaseStock(op: Op, writes: bool) returns (status: Status)
      modifies this
      ensures op !in old(reservations) ==> status == NotFound && unchanged(this)
      ensures op in old(reservations) ==>
                Answers(old(View()), old(store), Release(op), old(reservations)[op].sku, writes, status, View(), store)
      ensures op in old(reservations) ==>
                var r := old(reservations)[op];
                && status == (if r.sku !in old(stocks) then NotFound else if r.state == Released then Ok
                              else if r.state != Reserved then FailedPrecondition else if writes then Ok else Internal)
                && (status == Ok && r.state == Reserved ==>
                      && Moved(old(stocks), stocks, r.sku, r.quantity, -r.quantity, 0)
                      && reservations == old(reservations)[op := r.(state := Released)])
                && (status != Ok || r.state != Reserved ==> unchanged(this))
    {
      hide StockKey, ReservationKey, EncodeStock, EncodeReservation;
      if op !in reservations { return NotFound; }
      var previous := reservations[op];
      var sku := previous.sku;
      if sku !in stocks { return NotFound; }
      if previous.state == Released { return Ok; }
      if previous.state == Confirmed { return FailedPrecondition; }
      var previousStock := stocks[sku];
      var stock := Stock(previousStock.available + previous.quantity, previousStock.reserved - previous.quantity,
                         previousStock.sold);
      var reservation := previous.(state := Released);
      stocks, reservations := stocks[sku := stock], reservations[op := reservation];
      status := Persist(sku, stock, op, reservation, writes);
      if status != Ok {
        stocks, reservations := stocks[sku := previousStock], reservations[op := previous];
        assert stocks == old(stocks) && reservations == old(reservations);
      }
    }

    method RollbackConfirmation(op: Op, writes: bool) returns (status: Status)
      modifies this
      ensures op !in old(reservations) ==> status == NotFound && unchanged(this)
      ensures op in old(reservations) ==>
                Answers(old(View()), old(store), Call.RollbackConfirmation(op), old(reservations)[op].sku, writes,
                        status, View(), store)
      ensures op in old(reservations) ==>
                var r := old(reservations)[op];
                && status == (if r.sku !in old(stocks) then Aborted else if r.state != Confirmed then FailedPrecondition
                              else if writes then Ok else Internal)
                && (status == Ok && r.state == Confirmed ==>
                      && Moved(old(stocks), stocks, r.sku, 0, r.quantity, -r.quantity)
                      && reservations == old(reservations)[op := r.(state := Reserved)])
                && (status != Ok || r.state != Confirmed ==> unchanged(this))
    {
      hide StockKey, ReservationKey, EncodeStock, EncodeReservation;
      if op !in reservations { return NotFound; }
      var previous := reservations[op];
      var sku := previous.sku;
      if sku !in stocks { return Aborted; }
      if previous.state != Confirmed { return FailedPrecondition; }
      var previousStock := stocks[sku];
      var stock := Stock(previousStock.available, previousStock.reserved + previous.quantity,
                         previousStock.sold - previous.quantity);
      var reservation := previous.(state := Reserved);
      stocks, reservations := stocks[sku := stock], reservations[op := reservation];
      status := Persist(sku, stock, op, reservation, writes);
      if status != Ok {
        stocks, reservations := stocks[sku := previousStock], reservations[op := previous];
        assert stocks == old(stocks) && reservations == old(reservations);
      }
    }

    method RollbackRelease(op: Op, writes: bool) returns (status: Status)
      modifies this
      ensures op !in old(reservations) ==> status == NotFound && unchanged(this)
      ensures op in old(reservations) ==>
                Answers(old(View()), old(store), Call.RollbackRelease(op), old(reservations)[op].sku, writes,
                        status, View(), store)
      ensures op in old(reservations) ==>
                var r := old(reservations)[op];
                && status == (if r.sku !in old(stocks) then Aborted else if r.state != Released then FailedPrecondition
                              else if writes then Ok else Internal)
                && (status == Ok && r.state == Released ==>
                      && Moved(old(stocks), stocks, r.sku, -r.quantity, r.quantity, 0)
                      && reservations == old(reservations)[op := r.(state := Reserved)])
                && (status != Ok || r.state != Released ==> unchanged(this))
    {
      hide StockKey, ReservationKey, EncodeStock, EncodeReservation;
      if op !in reservations { return NotFound; }
      var previous := reservations[op];
      var sku := previous.sku;
      if sku !in stocks { return Aborted; }
      if previous.state != Released { return FailedPrecondition; }
      var previousStock := stocks[sku];
      var stock := Stock(previousStock.available - previous.quantity, previousStock.reserved + previous.quantity,
                         previousStock.sold);
      var reservation := previous.(state := Reserved);
      stocks, reservations := stocks[sku := stock], reservations[op := reservation];
      status := Persist(sku, stock, op, reservation, writes);
      if status != Ok {
        stocks, reservations := stocks[sku := previousStock], reservations[op := previous];
        assert stocks == old(stocks) && reservations == old(reservations);
      }
    }

    /**
     `order` is the order in which the hash map yields the reservations to release. One whose stock is missing ends
     the call at once, with what was released before it left in memory.
     */
    method ReleaseOrphans(ghost active: set<Op>, order: seq<Op>, writes: bool) returns (status: Status, released: nat)
      requires Candidates(View(), active, order)
      modifies this
      ensures status == Ok <==> AllHeld(old(View()), order) && (writes || order == [])
      ensures status == Ok ==> View() == ReleaseAll(old(View()), order) && released == |order|
      ensures status == Ok && Holds(old(store), old(View())) ==> Holds(store, View())
      ensures status != Ok ==> store == old(store) && released == 0
      ensures status != Ok && AllHeld(old(View()), order) ==>
                View() == UndoForward(ReleaseAll(old(View()), order), SavedOf(old(View()), order))
      ensures !AllHeld(old(View()), order) ==> StoppedAt(old(View()), order, View())
    {
      hide Holds, StockKey, ReservationKey, EncodeStock, EncodeReservation, ReleaseAll, SavedOf, UndoForward, AllHeld, Held;
      var changes: seq<Saved> := [];
      var written := store;
      ghost var l := View();
      NothingReleased(l);
      for i := 0 to |order|
        invariant store == old(store) && (Holds(store, l) ==> Holds(written, View()))
        invariant AllHeld(l, order[..i]) && View() == ReleaseAll(l, order[..i]) && changes == SavedOf(l, order[..i])
      {
        assert order[..i + 1] == order[..i] + [order[i]];
        var op := order[i];
        NextCandidate(l, order, i);
        var r := reservations[op];
        if r.sku !in stocks {
          assert StoppedAt(l, order, View());
          return Internal, 0;
        }
        WriteOfRelease(written, View(), op);
        ReleaseOneMore(l, order[..i], op);
        var s := stocks[r.sku];
        changes := changes + [Saved(op, r.sku, s, r)];
        stocks := stocks[r.sku := Stock(s.available + r.quantity, s.reserved - r.quantity, s.sold)];
        reservations := reservations[op := r.(state := Released)];
        written := written[StockKey(r.sku) := EncodeStock(stocks[r.sku])];
        written := written[ReservationKey(op) := EncodeReservation(reservations[op])];
      }
      assert order[..|order|] == order;
      if order == [] || writes {
        store := written;
        return Ok, |order|;
      }
      UndoChanges(changes);
      return Internal, 0;
    }

    method UndoChanges(changes: seq<Saved>)
      modifies this`stocks, this`reservations
      ensures View() == UndoForward(old(View()), changes)
    {
      for i := 0 to |changes|
        invariant UndoForward(View(), changes[i..]) == UndoForward(old(View()), changes)
      {
        assert changes[i..][1..] == changes[i + 1..];
        stocks := stocks[changes[i].sku := changes[i].stock];
        reservations := reservations[changes[i].op := changes[i].reservation];
      }
      assert changes[|changes|..] == [];
    }
  }

  /** Every reservation still reserved that has no order, each once. */
  ghost predicate Candidates(l: Ledger, active: set<Op>, ops: seq<Op>) {
    && (forall i, j :: 0 <= i < j < |ops| ==> ops[i] != ops[j])
    && (forall i :: 0 <= i < |ops| ==> Reservable(l, ops[i]) && ops[i] !in active)
    && (forall op :: Reservable(l, op) && op !in active ==> op in ops)
  }

  predicate Reservable(l: Ledger, op: Op) {
    op in l.reservations && l.reservations[op].state == Reserved
  }

  /** The release went up to the first reservation whose stock is missing. */
  ghost predicate StoppedAt(l: Ledger, ops: seq<Op>, after: Ledger) {
    exists i :: 0 <= i < |ops| && !Held(l, ops[i]) && AllHeld(l, ops[..i]) && after == ReleaseAll(l, ops[..i])
  }

  lemma NothingReleased(l: Ledger)
    ensures AllHeld(l, []) && ReleaseAll(l, []) == l && SavedOf(l, []) == []
  {}

  /** What releasing some operations leaves of another one. */
  lemma {:induction false} OthersStay(l: Ledger, ops: seq<Op>, op: Op)
    requires AllHeld(l, ops) && op !in ops
    ensures Lookup(ReleaseAll(l, ops).reservations, op) == Lookup(l.reservations, op)
    ensures ReleaseAll(l, ops).stocks.Keys == l.stocks.Keys
    decreases |ops|
  {
    if ops != [] {
      HeldAfterRelease(l, ops);
      OthersStay(ReleaseOne(l, ops[0]), ops[1..], op);
    }
  }

  lemma NextCandidate(l: Ledger, ops: seq<Op>, i: nat)
    requires i < |ops| && AllHeld(l, ops[..i]) && Reservable(l, ops[i])
    requires forall i, j :: 0 <= i < j < |ops| ==> ops[i] != ops[j]
    ensures var now := ReleaseAll(l, ops[..i]);
            && ops[i] in now.reservations && now.reservations[ops[i]] == l.reservations[ops[i]]
            && (Held(now, ops[i]) <==> Held(l, ops[i])) && (Held(l, ops[i]) <==> l.reservations[ops[i]].sku in now.stocks)
            && (Held(l, ops[i]) <==> AllHeld(l, ops[..i + 1]))
            && (!Held(l, ops[i]) ==> !AllHeld(l, ops))
  {
    hide ReleaseAll;
    OthersStay(l, ops[..i], ops[i]);
    assert ops[..i + 1] == ops[..i] + [ops[i]];
  }

  /** The loop releases one more: release and record go on at the end. */
  lemma {:induction false} ReleaseOneMore(l: Ledger, ops: seq<Op>, op: Op)
    requires AllHeld(l, ops + [op])
    ensures AllHeld(l, ops) && Held(ReleaseAll(l, ops), op)
    ensures ReleaseAll(l, ops + [op]) == ReleaseOne(ReleaseAll(l, ops), op)
    ensures var now := ReleaseAll(l, ops);
            SavedOf(l, ops + [op])
            == SavedOf(l, ops) + [Saved(op, now.reservations[op].sku, now.stocks[now.reservations[op].sku], now.reservations[op])]
    decreases |ops|
  {
    HeldPrefix(l, ops, op);
    if ops == [] {
      assert ops + [op] == [op] && [op][1..] == [];
    } else {
      HeldAfterRelease(l, ops + [op]);
      HeldAfterRelease(l, ops);
      assert (ops + [op])[1..] == ops[1..] + [op];
      ReleaseOneMore(ReleaseOne(l, ops[0]), ops[1..], op);
    }
  }

  lemma HeldPrefix(l: Ledger, ops: seq<Op>, op: Op)
    requires AllHeld(l, ops + [op])
    ensures AllHeld(l, ops) && Held(l, op)
  {
    hide Held;
    assert forall i :: 0 <= i < |ops| ==> (ops + [op])[i] == ops[i];
    assert (ops + [op])[|ops|] == op;
  }

  lemma WriteOfRelease(store: Store, l: Ledger, op: Op)
    requires Held(l, op)
    ensures var l' := ReleaseOne(l, op);
            var sku := l.reservations[op].sku;
            Holds(store, l) ==>
              Holds(store[StockKey(sku) := EncodeStock(l'.stocks[sku])]
                         [ReservationKey(op) := EncodeReservation(l'.reservations[op])], l')
  {
    hide Holds, StockKey, ReservationKey, EncodeStock, EncodeReservation;
    var c := Attempt(l, Release(op), l.reservations[op].sku).change;
    assert Land(l, c) == ReleaseOne(l, op);
    if Holds(store, l) { WriteLands(store, l, c); }
  }

  // ----- The invariant check -----

  function Count(totals: map<Sku, int>, sku: Sku): int {
    if sku in totals then totals[sku] else 0
  }

  /** One turn of the accumulating loop. */
  function Tally(totals: map<Sku, int>, r: Reservation, st: ReservationState): map<Sku, int> {
    if r.state == st then totals[r.sku := Count(totals, r.sku) + r.quantity] else totals
  }

  ghost predicate Tallies(totals: map<Sku, int>, rs: map<Op, Reservation>, st: ReservationState) {
    forall sku :: Count(totals, sku) == Total(rs, sku, st)
  }

  lemma NothingTallied(st: ReservationState)
    ensures Tallies(map[], map[], st)
  {}

  lemma TallyFollows(totals: map<Sku, int>, done: map<Op, Reservation>, op: Op, r: Reservation, st: ReservationState)
    requires op !in done && Tallies(totals, done, st)
    ensures Tallies(Tally(totals, r, st), done[op := r], st)
  {
    hide Total;
    forall sku ensures Count(Tally(totals, r, st), sku) == Total(done[op := r], sku, st) {
      TotalUpdate(done, op, r, sku, st);
    }
  }

  /** The loop over the reservations: a bad one ends it, otherwise it leaves the totals per SKU. */
  method Accumulate(l: Ledger) returns (ok: bool, reservedBySku: map<Sku, int>, soldBySku: map<Sku, int>)
    ensures ok <==> forall op :: op in l.reservations ==>
                      l.reservations[op].sku in l.stocks && l.reservations[op].quantity > 0
    ensures ok ==> Tallies(reservedBySku, l.reservations, Reserved)
    ensures ok ==> Tallies(soldBySku, l.reservations, Confirmed)
  {
    hide Tallies, Tally;
    reservedBySku, soldBySku := map[], map[];
    var todo := l.reservations.Keys;
    ghost var done: map<Op, Reservation> := map[];
    NothingTallied(Reserved);
    NothingTallied(Confirmed);
    while todo != {}
      invariant todo <= l.reservations.Keys
      invariant done.Keys == l.reservations.Keys - todo
      invariant forall op :: op in done ==> done[op] == l.reservations[op]
      invariant forall op :: op in done ==> l.reservations[op].sku in l.stocks && l.reservations[op].quantity > 0
      invariant Tallies(reservedBySku, done, Reserved)
      invariant Tallies(soldBySku, done, Confirmed)
      decreases |todo|
    {
      var op :| op in todo;
      var r := l.reservations[op];
      if r.sku !in l.stocks || r.quantity <= 0 { return false, map[], map[]; }
      TallyFollows(reservedBySku, done, op, r, Reserved);
      TallyFollows(soldBySku, done, op, r, Confirmed);
      reservedBySku := Tally(reservedBySku, r, Reserved);
      soldBySku := Tally(soldBySku, r, Confirmed);
      todo := todo - {op};
      done := done[op := r];
    }
    assert done == l.reservations;
    ok := true;
  }

  /** `validateInvariants` accepts exactly the balanced ledgers. */
  method ValidateInvariants(l: Ledger) returns (ok: bool)
    ensures ok <==> Balanced(l)
  {
    hide Total, Count;
    if exists sku :: sku in l.stocks && (l.stocks[sku].available < 0 || l.stocks[sku].reserved < 0 || l.stocks[sku].sold < 0) {
      return false;
    }
    var sound, reservedBySku, soldBySku := Accumulate(l);
    if !sound { return false; }
    ok := forall sku :: sku in l.stocks ==>
            Count(reservedBySku, sku) == l.stocks[sku].reserved && Count(soldBySku, sku) == l.stocks[sku].sold;
  }

  // ----- An operation id that changes its SKU -----

  /**
   The family of runs in which `confirm` looks before it locks: a reservation on one SKU is seen, its
   write fails and it is taken back, the same id is reserved on another SKU, and then the confirm goes on
   with the SKU it saw. The ledger is out of balance afterwards.
   */
  lemma ReboundConfirmBreaks(l: Ledger, a: Sku, b: Sku, op: Op, quantity: int)
    requires Balanced(l) && a in l.stocks && b in l.stocks && a != b && op !in l.reservations
    requires a != "" && b != "" && op != ""
    requires 0 < quantity <= l.stocks[a].available && quantity <= l.stocks[b].available
    ensures var first := Attempt(l, Reserve(a, quantity, op), a);
            && first.Changed?
            && var seen := Land(l, first.change).reservations[op].sku;
            var undone := Undo(Land(l, first.change), first.change);
            var second := Attempt(undone, Reserve(b, quantity, op), b);
            && second.Changed?
            && var rebound := Land(undone, second.change);
            var confirm := Attempt(rebound, Confirm(op), seen);
            && Balanced(rebound) && confirm.Changed? && !Balanced(Land(rebound, confirm.change))
  {
    hide Balanced;
    var first := Attempt(l, Reserve(a, quantity, op), a).change;
    UndoInvertsLand(l, Reserve(a, quantity, op), a);
    AttemptIsLegal(l, Reserve(b, quantity, op), b);
    var second := Attempt(l, Reserve(b, quantity, op), b).change;
    LandKeepsBalance(l, second);
    ResumedCallBalancedIff(Land(l, second), Confirm(op), a);
  }
}
