/** Reservations still held whose order never became durable, and their release at a restart. */
module InventoryOrphans {
  import opened Inventory

  predicate Held(l: Ledger, op: Op) {
    op in l.reservations && l.reservations[op].state == Reserved && l.reservations[op].sku in l.stocks
  }

  predicate AllHeld(l: Ledger, ops: seq<Op>) {
    && (forall i :: 0 <= i < |ops| ==> Held(l, ops[i]))
    && (forall i, j :: 0 <= i < j < |ops| ==> ops[i] != ops[j])
  }

  function ReleaseOne(l: Ledger, op: Op): Ledger
    requires Held(l, op)
  {
    var r := l.reservations[op];
    var s := l.stocks[r.sku];
    Ledger(l.stocks[r.sku := Stock(s.available + r.quantity, s.reserved - r.quantity, s.sold)],
           l.reservations[op := r.(state := Released)])
  }

  lemma HeldAfterRelease(l: Ledger, ops: seq<Op>)
    requires ops != [] && AllHeld(l, ops)
    ensures AllHeld(ReleaseOne(l, ops[0]), ops[1..])
  {
    var l' := ReleaseOne(l, ops[0]);
    forall i | 0 <= i < |ops[1..]| ensures Held(l', ops[1..][i]) {
      assert Held(l, ops[i + 1]) && ops[0] != ops[i + 1];
    }
  }

  /** The loop over the reservations, in the order the hash map yields them. */
  function ReleaseAll(l: Ledger, ops: seq<Op>): Ledger
    requires AllHeld(l, ops)
    decreases |ops|
  {
    if ops == [] then l else HeldAfterRelease(l, ops); ReleaseAll(ReleaseOne(l, ops[0]), ops[1..])
  }

  lemma ReleaseIsLegal(l: Ledger, op: Op)
    requires Balanced(l) && Held(l, op)
    ensures Balanced(ReleaseOne(l, op))
    ensures forall sku :: sku in l.stocks ==>
              sku in ReleaseOne(l, op).stocks && ReleaseOne(l, op).stocks[sku].Sum() == l.stocks[sku].Sum()
  {
    hide Total, Balanced;
    var sku := l.reservations[op].sku;
    AttemptIsLegal(l, Release(op), sku);
    var c := Attempt(l, Release(op), sku).change;
    LandKeepsBalance(l, c);
    assert ReleaseOne(l, op) == Land(l, c);
  }

  lemma {:induction false} ReleaseAllBalanced(l: Ledger, ops: seq<Op>)
    requires Balanced(l) && AllHeld(l, ops)
    ensures Balanced(ReleaseAll(l, ops))
    ensures ReleaseAll(l, ops).stocks.Keys == l.stocks.Keys && ReleaseAll(l, ops).reservations.Keys == l.reservations.Keys
    ensures forall sku :: sku in l.stocks ==> ReleaseAll(l, ops).stocks[sku].Sum() == l.stocks[sku].Sum()
    ensures forall op :: op in l.reservations ==>
              ReleaseAll(l, ops).reservations[op]
              == if op in ops then l.reservations[op].(state := Released) else l.reservations[op]
    decreases |ops|
  {
    hide Balanced;
    if ops != [] {
      HeldAfterRelease(l, ops);
      ReleaseIsLegal(l, ops[0]);
      ReleaseAllBalanced(ReleaseOne(l, ops[0]), ops[1..]);
      assert ops == [ops[0]] + ops[1..];
    }
  }

  /** `ops` are the reservations still held whose operation has no durable order. */
  ghost predicate Orphans(l: Ledger, active: set<Op>, ops: seq<Op>) {
    && AllHeld(l, ops)
    && (forall i :: 0 <= i < |ops| ==> ops[i] !in active)
    && (forall op :: op in l.reservations && l.reservations[op].state == Reserved && op !in active ==> op in ops)
  }

  /**
   After a restart has released the orphans: the ledger is balanced, every SKU keeps its quantity, each
   reservation still held belongs to a durable order, and a second restart finds nothing to release.
   */
  lemma RestartIsClean(l: Ledger, active: set<Op>, ops: seq<Op>, again: seq<Op>)
    requires Balanced(l) && Orphans(l, active, ops)
    requires Orphans(ReleaseAll(l, ops), active, again)
    ensures var l' := ReleaseAll(l, ops);
            && Balanced(l')
            && (forall sku :: sku in l.stocks ==> sku in l'.stocks && l'.stocks[sku].Sum() == l.stocks[sku].Sum())
            && (forall op :: op in l'.reservations && l'.reservations[op].state == Reserved ==>
                  op in active && op in l.reservations && l'.reservations[op] == l.reservations[op])
            && again == [] && ReleaseAll(l', again) == l'
  {
    hide Balanced;
    var l' := ReleaseAll(l, ops);
    ReleaseAllBalanced(l, ops);
    if again != [] {
      assert Held(l', again[0]);
      assert again[0] !in active;
    }
  }
}
