/** The inventory ledger: stock counters per SKU and reservations per business operation. */
module Inventory {
  import opened Common

  type Sku = string
  type Op = string

  datatype Stock = Stock(available: int, reserved: int, sold: int) {
    function Sum(): int {
      available + reserved + sold
    }
  }

  datatype ReservationState = Reserved | Confirmed | Released

  datatype Reservation = Reservation(sku: Sku, quantity: int, state: ReservationState)

  datatype Ledger = Ledger(stocks: map<Sku, Stock>, reservations: map<Op, Reservation>)

  // ----- Totals over the reservations -----

  /** What a reservation counts towards the total of `sku` in state `st`. */
  function Weight(r: Reservation, sku: Sku, st: ReservationState): int {
    if r.sku == sku && r.state == st then r.quantity else 0
  }

  function OptionalWeight(r: Option<Reservation>, sku: Sku, st: ReservationState): int {
    match r
    case None => 0
    case Some(v) => Weight(v, sku, st)
  }

  ghost function Total(rs: map<Op, Reservation>, sku: Sku, st: ReservationState): int
    decreases |rs|
  {
    if rs == map[] then 0
    else
      var op :| op in rs;
      Smaller(rs, op);
      Weight(rs[op], sku, st) + Total(rs - {op}, sku, st)
  }

  lemma Smaller(rs: map<Op, Reservation>, op: Op)
    requires op in rs
    ensures |rs - {op}| == |rs| - 1
  {
    assert (rs - {op}).Keys == rs.Keys - {op};
  }

  lemma {:induction false} TotalWithout(rs: map<Op, Reservation>, op: Op, sku: Sku, st: ReservationState)
    requires op in rs
    ensures Total(rs, sku, st) == Weight(rs[op], sku, st) + Total(rs - {op}, sku, st)
    decreases |rs|
  {
    var first :| first in rs && Total(rs, sku, st) == Weight(rs[first], sku, st) + Total(rs - {first}, sku, st);
    if first != op {
      Smaller(rs, first);
      Smaller(rs, op);
      TotalWithout(rs - {first}, op, sku, st);
      TotalWithout(rs - {op}, first, sku, st);
      assert rs - {first} - {op} == rs - {op} - {first};
    }
  }

  function Lookup<K, V>(m: map<K, V>, k: K): Option<V> {
    if k in m then Some(m[k]) else None
  }

  /** Setting one reservation moves a total by the difference of the weights. */
  lemma TotalUpdate(rs: map<Op, Reservation>, op: Op, r: Reservation, sku: Sku, st: ReservationState)
    ensures Total(rs[op := r], sku, st)
            == Total(rs, sku, st) - OptionalWeight(Lookup(rs, op), sku, st) + Weight(r, sku, st)
  {
    TotalWithout(rs[op := r], op, sku, st);
    assert rs[op := r] - {op} == rs - {op};
    if op in rs {
      TotalWithout(rs, op, sku, st);
    } else {
      assert rs - {op} == rs;
    }
  }

  lemma {:induction false} TotalBounds(rs: map<Op, Reservation>, sku: Sku, st: ReservationState)
    requires forall op :: op in rs ==> rs[op].quantity > 0
    ensures Total(rs, sku, st) >= 0
    ensures (forall op :: op in rs ==> Weight(rs[op], sku, st) == 0) ==> Total(rs, sku, st) == 0
    decreases |rs|
  {
    if rs != map[] {
      var op :| op in rs && Total(rs, sku, st) == Weight(rs[op], sku, st) + Total(rs - {op}, sku, st);
      Smaller(rs, op);
      var rest := rs - {op};
      assert forall o :: o in rest ==> o in rs && rest[o] == rs[o];
      TotalBounds(rest, sku, st);
      assert Weight(rs[op], sku, st) >= 0;
      assert Total(rs, sku, st) >= 0;
    }
  }

  // ----- The repository's own invariant checker -----

  /** What `validateInvariants` accepts. */
  ghost predicate Balanced(l: Ledger) {
    && (forall sku :: sku in l.stocks ==>
          l.stocks[sku].available >= 0 && l.stocks[sku].reserved >= 0 && l.stocks[sku].sold >= 0)
    && (forall op :: op in l.reservations ==>
          l.reservations[op].sku in l.stocks && l.reservations[op].quantity > 0)
    && (forall sku :: sku in l.stocks ==>
          && l.stocks[sku].reserved == Total(l.reservations, sku, Reserved)
          && l.stocks[sku].sold == Total(l.reservations, sku, Confirmed))
  }

  // ----- One change of the ledger -----

  datatype Call =
    | AddSku(sku: Sku, quantity: int)
    | Reserve(sku: Sku, quantity: int, op: Op)
    | Confirm(op: Op)
    | Release(op: Op)
    | RollbackConfirmation(op: Op)
    | RollbackRelease(op: Op)

  /** What a call changed in memory: the values before and after, as it keeps them for the undo. */
  datatype Change = Change(
    call: Call, sku: Sku, before: Option<Stock>, after: Stock,
    op: Option<Op>, reservationBefore: Option<Reservation>, reservationAfter: Option<Reservation>)

  datatype Outcome = Answer(status: Status) | Changed(change: Change)

  /**
   The part of a call that runs under the memory locks. `sku` is the SKU the caller works on: an
   argument of the call, or, for the last four, what an earlier look at the reservation said.
   */
  function Attempt(l: Ledger, call: Call, sku: Sku): Outcome {
    match call
    case AddSku(_, quantity) =>
      if sku in l.stocks then Answer(AlreadyExists)
      else Changed(Change(call, sku, None, Stock(quantity, 0, 0), None, None, None))
    case Reserve(_, quantity, op) =>
      if op in l.reservations then
        if l.reservations[op].sku == sku && l.reservations[op].quantity == quantity
        then Answer(Ok) else Answer(FailedPrecondition)
      else if sku !in l.stocks then Answer(NotFound)
      else
        var s := l.stocks[sku];
        if s.available < quantity then Answer(ResourceExhausted)
        else Changed(Change(call, sku, Some(s), Stock(s.available - quantity, s.reserved + quantity, s.sold),
                            Some(op), None, Some(Reservation(sku, quantity, Reserved))))
    case Confirm(op) =>
      if op !in l.reservations || sku !in l.stocks then Answer(NotFound)
      else
        var r, s := l.reservations[op], l.stocks[sku];
        if r.state == Confirmed then Answer(Ok)
        else if r.state == Released then Answer(FailedPrecondition)
        else Changed(Change(call, sku, Some(s), Stock(s.available, s.reserved - r.quantity, s.sold + r.quantity),
                            Some(op), Some(r), Some(r.(state := Confirmed))))
    case Release(op) =>
      if op !in l.reservations || sku !in l.stocks then Answer(NotFound)
      else
        var r, s := l.reservations[op], l.stocks[sku];
        if r.state == Released then Answer(Ok)
        else if r.state == Confirmed then Answer(FailedPrecondition)
        else Changed(Change(call, sku, Some(s), Stock(s.available + r.quantity, s.reserved - r.quantity, s.sold),
                            Some(op), Some(r), Some(r.(state := Released))))
    case RollbackConfirmation(op) =>
      if op !in l.reservations || sku !in l.stocks then Answer(Aborted)
      else
        var r, s := l.reservations[op], l.stocks[sku];
        if r.state != Confirmed then Answer(FailedPrecondition)
        else Changed(Change(call, sku, Some(s), Stock(s.available, s.reserved + r.quantity, s.sold - r.quantity),
                            Some(op), Some(r), Some(r.(state := Reserved))))
    case RollbackRelease(op) =>
      if op !in l.reservations || sku !in l.stocks then Answer(Aborted)
      else
        var r, s := l.reservations[op], l.stocks[sku];
        if r.state != Released then Answer(FailedPrecondition)
        else Changed(Change(call, sku, Some(s), Stock(s.available - r.quantity, s.reserved + r.quantity, s.sold),
                            Some(op), Some(r), Some(r.(state := Reserved))))
  }

  /** The change as it lands in a ledger, in memory or in storage. */
  function Land(l: Ledger, c: Change): Ledger {
    Ledger(l.stocks[c.sku := c.after],
           if c.op.Some? && c.reservationAfter.Some? then l.reservations[c.op.value := c.reservationAfter.value]
           else l.reservations)
  }

  /** The undo of each call when its write to storage failed. */
  function Undo(l: Ledger, c: Change): Ledger {
    match c.call
    case AddSku(_, _) => l.(stocks := l.stocks - {c.sku})
    case Reserve(_, quantity, op) =>
      if c.sku in l.stocks && op in l.reservations then
        var s := l.stocks[c.sku];
        Ledger(l.stocks[c.sku := Stock(s.available + quantity, s.reserved - quantity, s.sold)], l.reservations - {op})
      else l
    case _ =>
      if c.before.Some? && c.op.Some? && c.reservationBefore.Some?
      then Ledger(l.stocks[c.sku := c.before.value], l.reservations[c.op.value := c.reservationBefore.value])
      else l
  }

  // ----- What a change does to the balance -----

  /** The values a change was computed from are those of the ledger. */
  predicate Matches(l: Ledger, c: Change) {
    && Lookup(l.stocks, c.sku) == c.before
    && (c.op.Some? ==> Lookup(l.reservations, c.op.value) == c.reservationBefore)
  }

  /** A change that moves counters and reservation together and leaves no counter below zero. */
  predicate Legal(c: Change) {
    match c.before
    case None =>
      c.call.AddSku? && c.op.None? && c.after == Stock(c.after.available, 0, 0) && c.after.available > 0
    case Some(s) =>
      && !c.call.AddSku? && c.op.Some? && c.reservationAfter.Some?
      && c.after.available >= 0
      && c.after.Sum() == s.Sum()
      && c.reservationAfter.value.sku == c.sku && c.reservationAfter.value.quantity > 0
      && (c.reservationBefore.Some? ==> c.reservationBefore.value.sku == c.sku)
      && c.after.reserved == s.reserved - OptionalWeight(c.reservationBefore, c.sku, Reserved)
                             + OptionalWeight(c.reservationAfter, c.sku, Reserved)
      && c.after.sold == s.sold - OptionalWeight(c.reservationBefore, c.sku, Confirmed)
                         + OptionalWeight(c.reservationAfter, c.sku, Confirmed)
  }

  lemma LandNewSku(l: Ledger, c: Change)
    requires Balanced(l) && Matches(l, c) && Legal(c) && c.before.None?
    ensures Balanced(Land(l, c))
  {
    forall st: ReservationState ensures Total(l.reservations, c.sku, st) == 0 {
      TotalBounds(l.reservations, c.sku, st);
    }
  }

  lemma LandReservation(l: Ledger, c: Change)
    requires Balanced(l) && Matches(l, c) && Legal(c) && c.before.Some?
    ensures Balanced(Land(l, c))
  {
    var l' := Land(l, c);
    var op, r := c.op.value, c.reservationAfter.value;
    forall sku | sku in l'.stocks
      ensures l'.stocks[sku].reserved == Total(l'.reservations, sku, Reserved)
      ensures l'.stocks[sku].sold == Total(l'.reservations, sku, Confirmed)
      ensures l'.stocks[sku].reserved >= 0 && l'.stocks[sku].sold >= 0
    {
      TotalUpdate(l.reservations, op, r, sku, Reserved);
      TotalUpdate(l.reservations, op, r, sku, Confirmed);
      TotalBounds(l'.reservations, sku, Reserved);
      TotalBounds(l'.reservations, sku, Confirmed);
    }
  }

  /** A legal change keeps any ledger it matches balanced and every sum as it was. */
  lemma LandKeepsBalance(l: Ledger, c: Change)
    requires Balanced(l) && Matches(l, c) && Legal(c)
    ensures Balanced(Land(l, c))
    ensures forall sku :: sku in l.stocks ==> Land(l, c).stocks[sku].Sum() == l.stocks[sku].Sum()
  {
    if c.before.None? { LandNewSku(l, c); } else { LandReservation(l, c); }
  }

  /** The undo takes a landed change back exactly. */
  lemma UndoInvertsLand(l: Ledger, call: Call, sku: Sku)
    requires Attempt(l, call, sku).Changed?
    ensures var c := Attempt(l, call, sku).change;
            Matches(l, c) && Undo(Land(l, c), c) == l
  {
    var c := Attempt(l, call, sku).change;
    var l' := Undo(Land(l, c), c);
    assert l'.stocks == l.stocks;
    assert l'.reservations == l.reservations;
  }

  /** The arguments each call checks before it takes a lock. */
  predicate GoodArguments(call: Call) {
    match call
    case AddSku(sku, quantity) => sku != "" && quantity > 0
    case Reserve(sku, quantity, op) => sku != "" && quantity > 0 && op != ""
    case _ => true
  }

  /** Every call but `rollbackRelease` changes a balanced ledger legally, if it looks at the right SKU. */
  lemma AttemptIsLegal(l: Ledger, call: Call, sku: Sku)
    requires Balanced(l) && GoodArguments(call)
    requires Attempt(l, call, sku).Changed?
    requires !call.AddSku? && !call.Reserve? ==> l.reservations[call.op].sku == sku
    ensures Legal(Attempt(l, call, sku).change)
            <==> call.RollbackRelease? ==> l.stocks[sku].available >= l.reservations[call.op].quantity
  {}

  /**
   `rollbackRelease` does not look at the available count. It keeps the sum in any case, and the
   balance exactly when that much is available.
   */
  lemma RollbackReleaseBalancedIff(l: Ledger, op: Op)
    requires Balanced(l) && op in l.reservations && l.reservations[op].state == Released
    ensures var r := l.reservations[op];
            var out := Attempt(l, RollbackRelease(op), r.sku);
            && out.Changed?
            && (Balanced(Land(l, out.change)) <==> l.stocks[r.sku].available >= r.quantity)
            && forall sku :: sku in l.stocks ==> Land(l, out.change).stocks[sku].Sum() == l.stocks[sku].Sum()
  {
    var r := l.reservations[op];
    var c := Attempt(l, RollbackRelease(op), r.sku).change;
    AttemptIsLegal(l, RollbackRelease(op), r.sku);
    if l.stocks[r.sku].available >= r.quantity {
      LandKeepsBalance(l, c);
    } else {
      assert Land(l, c).stocks[r.sku].available < 0;
    }
  }

  /**
   Confirm, release and the two rollbacks read the SKU before they take the lock. When such a call changes the
   ledger, the ledger stays balanced exactly when the reservation still belongs to that SKU and, for the
   rollback of a release, that much is available.
   */
  lemma ResumedCallBalancedIff(l: Ledger, call: Call, sku: Sku)
    requires Balanced(l) && !call.AddSku? && !call.Reserve? && Attempt(l, call, sku).Changed?
    ensures Balanced(Land(l, Attempt(l, call, sku).change))
            <==> l.reservations[call.op].sku == sku
                 && (call.RollbackRelease? ==> l.stocks[sku].available >= l.reservations[call.op].quantity)
  {
    if l.reservations[call.op].sku != sku {
      StaleCallBreaks(l, call, sku);
    } else if call.RollbackRelease? {
      RollbackReleaseBalancedIff(l, call.op);
    } else {
      AttemptIsLegal(l, call, sku);
      LandKeepsBalance(l, Attempt(l, call, sku).change);
    }
  }

  /** On the wrong SKU the reserved counter moves and its total does not. */
  lemma StaleCallBreaks(l: Ledger, call: Call, sku: Sku)
    requires Balanced(l) && !call.AddSku? && !call.Reserve? && Attempt(l, call, sku).Changed?
    requires l.reservations[call.op].sku != sku
    ensures !Balanced(Land(l, Attempt(l, call, sku).change))
  {
    hide Total;
    var c := Attempt(l, call, sku).change;
    TotalUpdate(l.reservations, call.op, c.reservationAfter.value, sku, Reserved);
    assert Land(l, c).stocks[sku].reserved != l.stocks[sku].reserved;
  }
}
