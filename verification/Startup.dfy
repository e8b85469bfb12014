/** The start of the process: the inventory restores its ledger, the orders theirs, and orphans are released. */
module Startup {
  import Common
  import opened Inventory
  import opened InventoryOrphans
  import I = InventoryRuns
  import R = InventoryRecovery
  import C = InventoryCodec
  import O = OrderRuns
  import S = OrderService
  import B = Bytes
  import K = KvTable
  import W = Wal

  /** The orphans of a balanced ledger can be listed. */
  lemma OrphansExist(l: Ledger, active: set<Op>) returns (ops: seq<Op>)
    requires Balanced(l)
    ensures Orphans(l, active, ops)
  {
    hide Total;
    var todo := set op | op in l.reservations && l.reservations[op].state == Reserved && op !in active;
    ghost var all := todo;
    ops := [];
    while todo != {}
      invariant todo <= all && (forall op :: op in ops <==> op in all && op !in todo)
      invariant forall i, j :: 0 <= i < j < |ops| ==> ops[i] != ops[j]
      decreases |todo|
    {
      var op :| op in todo;
      assert op !in ops;
      ops := ops + [op];
      todo := todo - {op};
    }
    forall i | 0 <= i < |ops| ensures ops[i] in all { assert ops[i] in ops; }
  }

  /** A start releases the orphans `ops`, and a second start then `again`. */
  ghost predicate TwoStarts(l: Ledger, active: set<Op>, ops: seq<Op>, again: seq<Op>) {
    AllHeld(l, ops) && Orphans(l, active, ops) && Orphans(ReleaseAll(l, ops), active, again)
  }

  /** Balanced, with the quantity each SKU was added with, and an order for each operation still reserved. */
  ghost predicate Started(m: I.Machine, l: Ledger, orders: map<string, S.Order>) {
    && Balanced(l)
    && (forall sku :: sku in l.stocks ==> sku in m.initial && l.stocks[sku].Sum() == m.initial[sku])
    && (forall op :: op in l.reservations && l.reservations[op].state == Reserved ==> op in orders)
  }

  /**
   Any run of the inventory and any run of the orders, failed deletes included, each stopped at any point. After the
   release of the orphans the stored ledger is balanced, every SKU has the quantity it was added with, every
   operation still reserved has an order, and a second start releases nothing. The stored inventory decodes to that ledger exactly
   when no SKU in it has the separator. The orders are those that are stored when none of their texts has a tab,
   and their index is then inverse to the table exactly when no two records share a key.
   */
  lemma BothRestart(w: I.World, es: seq<I.Event>, m: I.Machine, os: seq<O.Event>, f: O.Machine,
                    orders: map<string, S.Order>, index: map<string, string>, ops: seq<Op>, again: seq<Op>)
    requires I.CanRun(w, I.Fresh(), es) && m == I.Run(w, I.Fresh(), es)
    requires O.CanRun(O.NEW, os) && f == O.Run(O.NEW, os) && forall i :: 0 <= i < |os| ==> O.InRange(os[i])
    requires S.Rebuilt(f.book.disk, orders, index)
    requires TwoStarts(m.durable, orders.Keys, ops, again)
    ensures var store := R.StoreAfter(w, I.Fresh(), map[], es);
            && (R.Decodes(store, m.durable) <==> I.PlainLedger(m.durable))
            && (I.PlainLedger(m.durable) ==> forall x :: R.Decodes(store, x) ==> x == m.durable)
            && (O.AllPlain(f.stored) ==>
                  && orders == f.stored && orders.Keys == f.book.disk.Keys
                  && (S.Inverse(S.Book(orders, index, f.book.disk)) <==> O.DistinctKeys(f.stored)))
    ensures Started(m, ReleaseAll(m.durable, ops), orders) && again == []
  {
    hide Balanced, Orphans, I.CanRun, I.Run, O.CanRun, O.Run, R.StoreAfter, R.Decodes, S.Rebuilt, S.Inverse, C.Holds;
    hide ReleaseAll, S.AllDecode, O.InRange, O.AllPlain, O.DistinctKeys, I.PlainLedger, O.IndexOf, O.PlainCall;
    R.EveryCrashRestores(w, es);
    O.EveryStopRestores(os, orders, index);
    var l := m.durable;
    RestartIsClean(l, orders.Keys, ops, again);
    ReleaseAllKeys(l, ops) by { OrphansHeld(l, orders.Keys, ops); }
  }

  lemma OrphansHeld(l: Ledger, active: set<Op>, ops: seq<Op>)
    requires Orphans(l, active, ops)
    ensures AllHeld(l, ops)
  {}

  lemma ReleaseAllKeys(l: Ledger, ops: seq<Op>)
    requires Balanced(l) && AllHeld(l, ops)
    ensures ReleaseAll(l, ops).stocks.Keys == l.stocks.Keys
  {
    hide Balanced;
    ReleaseAllBalanced(l, ops);
  }

  // ----- The batch of a release -----

  /** How a text is laid out in bytes, one for each character. */
  type Encoding = string -> seq<B.byte>

  function Put(enc: Encoding, key: string, value: string): W.WalRecord {
    W.WalRecord(W.SET, enc(key), enc(value))
  }

  /** The mutations that the release of orphans collects: the stock and the reservation of each. */
  function Mutations(enc: Encoding, l: Ledger, ops: seq<Op>): seq<W.WalRecord>
    requires AllHeld(l, ops)
    decreases |ops|
  {
    if ops == [] then []
    else
      HeldAfterRelease(l, ops);
      var after, sku := ReleaseOne(l, ops[0]), l.reservations[ops[0]].sku;
      [Put(enc, C.StockKey(sku), C.EncodeStock(after.stocks[sku])),
       Put(enc, C.ReservationKey(ops[0]), C.EncodeReservation(after.reservations[ops[0]]))]
      + Mutations(enc, after, ops[1..])
  }

  lemma {:induction false} TwoForEach(enc: Encoding, l: Ledger, ops: seq<Op>)
    requires AllHeld(l, ops) && forall s :: |enc(s)| == |s|
    ensures |Mutations(enc, l, ops)| == 2 * |ops| && K.AllMutations(Mutations(enc, l, ops))
    decreases |ops|
  {
    hide C.EncodeStock, C.EncodeReservation;
    if ops != [] {
      HeldAfterRelease(l, ops);
      TwoForEach(enc, ReleaseOne(l, ops[0]), ops[1..]);
      var sku := l.reservations[ops[0]].sku;
      assert |C.StockKey(sku)| > 0 && |C.ReservationKey(ops[0])| > 0;
    }
  }

  /**
   The release of orphans writes one batch. Where the engine takes it into its log, the log can be opened again exactly
   when at most 50000 orphans were released and their records take at most 64 MiB.
   */
  lemma ReleaseOpensIff(crc: W.Checksum, table: map<seq<B.byte>, seq<B.byte>>, log: seq<W.WalRecord>,
                        enc: Encoding, l: Ledger, ops: seq<Op>)
    requires AllHeld(l, ops) && ops != [] && (forall s :: |enc(s)| == |s|) && K.AllDurable(log)
    requires |ops| < B.U32_LIMIT / 2 && W.AllBounded(Mutations(enc, l, ops))
    requires W.Appendable(K.BatchRecord(Mutations(enc, l, ops)))
    ensures var ms := Mutations(enc, l, ops);
            W.Replay(crc, K.Apply, table, W.EncodeAll(crc, log + [K.BatchRecord(ms)]), 0).status == Common.Ok
            <==> |ops| <= 50_000 && K.BatchSize(ms) <= W.MAX_VALUE_SIZE
  {
    hide K.Durable, K.BatchSize, Mutations, W.Replay, W.EncodeAll, K.BatchRecord, W.Appendable;
    var ms := Mutations(enc, l, ops);
    TwoForEach(enc, l, ops);
    K.BatchDurableIff(ms);
    var r := K.BatchRecord(ms);
    forall i | 0 <= i < |log| ensures W.Appendable(log[i]) { DurableIsAppendable(log[i]); }
    K.OpensIffDurable(crc, table, log + [r]);
    assert (log + [r])[|log|] == r;
  }

  lemma DurableIsAppendable(r: W.WalRecord)
    requires K.Durable(r)
    ensures W.Appendable(r)
  {
    hide K.Effect;
  }
}
