/** Where the reserved stock of the flash-sale path is, and what is sold, whatever fails. */
module SagaStock {
  import opened Common
  import opened Inventory
  import opened Saga
  import G = Gate

  // ----- Who may hold stock -----

  predicate StageHolds(stage: SubmitStage) {
    stage == Holding || stage == Returning
  }

  predicate SubmitterHolds(ss: seq<Submitter>, m: Message) {
    exists i :: 0 <= i < |ss| && StageHolds(ss[i].stage) && ss[i].message == m
  }

  predicate WorkerHolds(ws: seq<Worker>, m: Message) {
    exists i :: 0 <= i < |ws| && ws[i].stage != Quitting && ws[i].message == m
  }

  /** The owner of the message may have stock reserved for it. */
  predicate Liable(s: State, m: Message) {
    SubmitterHolds(s.submitters, m) || m in s.queue || WorkerHolds(s.workers, m)
  }

  lemma SubmitterGone(ss: seq<Submitter>, i: nat, m: Message)
    requires i < |ss|
    ensures SubmitterHolds(Without(ss, i), m) ==> SubmitterHolds(ss, m)
    ensures SubmitterHolds(ss, m) && (m != ss[i].message || !StageHolds(ss[i].stage)) ==> SubmitterHolds(Without(ss, i), m)
  {
    var t := Without(ss, i);
    if SubmitterHolds(t, m) {
      var j :| 0 <= j < |t| && StageHolds(t[j].stage) && t[j].message == m;
      assert ss[if j < i then j else j + 1] == t[j];
    }
    if SubmitterHolds(ss, m) && (m != ss[i].message || !StageHolds(ss[i].stage)) {
      var j :| 0 <= j < |ss| && StageHolds(ss[j].stage) && ss[j].message == m;
      assert t[if j < i then j else j - 1] == ss[j];
    }
  }

  lemma SubmitterMoves(ss: seq<Submitter>, i: nat, stage: SubmitStage, m: Message)
    requires i < |ss|
    ensures var t := ss[i := ss[i].(stage := stage)];
            && (m != ss[i].message || StageHolds(stage) == StageHolds(ss[i].stage) ==>
                  (SubmitterHolds(t, m) <==> SubmitterHolds(ss, m)))
            && (StageHolds(stage) ==> SubmitterHolds(t, ss[i].message))
            && (!StageHolds(stage) && SubmitterHolds(t, m) ==> SubmitterHolds(ss, m))
  {
    var t := ss[i := ss[i].(stage := stage)];
    if SubmitterHolds(ss, m) && (m != ss[i].message || StageHolds(stage) == StageHolds(ss[i].stage)) {
      var j :| 0 <= j < |ss| && StageHolds(ss[j].stage) && ss[j].message == m;
      assert StageHolds(t[j].stage) && t[j].message == m;
    }
    if SubmitterHolds(t, m) {
      var j :| 0 <= j < |t| && StageHolds(t[j].stage) && t[j].message == m;
      assert ss[j].message == m;
    }
    if StageHolds(stage) { assert t[i].message == ss[i].message; }
  }

  lemma WorkerGone(ws: seq<Worker>, i: nat, m: Message)
    requires i < |ws|
    ensures WorkerHolds(Without(ws, i), m) ==> WorkerHolds(ws, m)
    ensures WorkerHolds(ws, m) && (m != ws[i].message || ws[i].stage == Quitting) ==> WorkerHolds(Without(ws, i), m)
  {
    var t := Without(ws, i);
    if WorkerHolds(t, m) {
      var j :| 0 <= j < |t| && t[j].stage != Quitting && t[j].message == m;
      assert ws[if j < i then j else j + 1] == t[j];
    }
    if WorkerHolds(ws, m) && (m != ws[i].message || ws[i].stage == Quitting) {
      var j :| 0 <= j < |ws| && ws[j].stage != Quitting && ws[j].message == m;
      assert t[if j < i then j else j - 1] == ws[j];
    }
  }

  lemma WorkerMoves(ws: seq<Worker>, i: nat, stage: WorkStage, m: Message)
    requires i < |ws| && ws[i].stage != Quitting
    ensures var t := ws[i := ws[i].(stage := stage)];
            && (m != ws[i].message || stage != Quitting ==> (WorkerHolds(t, m) <==> WorkerHolds(ws, m)))
            && (WorkerHolds(t, m) ==> WorkerHolds(ws, m))
  {
    var t := ws[i := ws[i].(stage := stage)];
    if WorkerHolds(ws, m) && (m != ws[i].message || stage != Quitting) {
      var j :| 0 <= j < |ws| && ws[j].stage != Quitting && ws[j].message == m;
      assert t[j].stage != Quitting && t[j].message == m;
    }
    if WorkerHolds(t, m) {
      var j :| 0 <= j < |t| && t[j].stage != Quitting && t[j].message == m;
      assert ws[j].message == m && ws[j].stage != Quitting;
    }
  }

  // ----- What the inventory calls do -----

  predicate Backed(l: Ledger, m: Message) {
    m.order in l.reservations && l.reservations[m.order].sku == m.sku && l.reservations[m.order].quantity == m.quantity
  }

  predicate InState(l: Ledger, op: Op, st: ReservationState) {
    op in l.reservations && l.reservations[op].state == st
  }

  /** Reservations are never dropped or rewritten, and no SKU comes or goes. */
  ghost predicate Extends(l: Ledger, l': Ledger) {
    && l'.stocks.Keys == l.stocks.Keys
    && forall op :: op in l.reservations ==>
         op in l'.reservations && l'.reservations[op].sku == l.reservations[op].sku
         && l'.reservations[op].quantity == l.reservations[op].quantity
  }

  /** Away from `op` nothing changes state. */
  ghost predicate OnlyOp(l: Ledger, l': Ledger, op: Op) {
    forall o, st :: o != op ==> (InState(l', o, st) <==> InState(l, o, st))
  }

  ghost predicate SameSold(l: Ledger, l': Ledger) {
    forall sku :: sku in l.stocks && sku in l'.stocks ==> l'.stocks[sku].sold == l.stocks[sku].sold
  }

  lemma TakeEffect(l: Ledger, m: Message, storage: bool)
    requires Balanced(l) && m.quantity > 0 && m.sku != "" && m.order != ""
    ensures var (status, l') := Take(l, m, storage);
            && Balanced(l') && Extends(l, l') && OnlyOp(l, l', m.order) && SameSold(l, l')
            && (status == Ok ==> Backed(l', m))
            && (status != Ok || m.order in l.reservations ==> l' == l)
            && (InState(l', m.order, Confirmed) <==> InState(l, m.order, Confirmed))
            && (InState(l', m.order, Released) <==> InState(l, m.order, Released))
  {
    hide Total;
    var call := Reserve(m.sku, m.quantity, m.order);
    if Attempt(l, call, m.sku).Changed? {
      AttemptIsLegal(l, call, m.sku);
      UndoInvertsLand(l, call, m.sku);
      LandKeepsBalance(l, Attempt(l, call, m.sku).change);
    }
  }

  /** A release of a reserved operation, or one released before, ends it; a failed write leaves the ledger. */
  lemma GiveEffect(l: Ledger, op: Op, storage: bool)
    requires Balanced(l)
    ensures var l' := Give(l, op, storage).1;
            && Balanced(l') && Extends(l, l') && OnlyOp(l, l', op) && SameSold(l, l')
            && (!storage ==> l' == l)
            && (storage ==> !InState(l', op, Reserved))
            && (InState(l', op, Confirmed) <==> InState(l, op, Confirmed))
            && (InState(l', op, Released) <==> InState(l, op, Released) || (storage && InState(l, op, Reserved)))
  {
    hide Total;
    if op in l.reservations {
      var sku := l.reservations[op].sku;
      if Attempt(l, Release(op), sku).Changed? {
        AttemptIsLegal(l, Release(op), sku);
        UndoInvertsLand(l, Release(op), sku);
        LandKeepsBalance(l, Attempt(l, Release(op), sku).change);
      }
    }
  }

  /** A confirmation of an operation not confirmed before succeeds exactly when it is reserved and the write succeeds. */
  lemma ConfirmEffect(l: Ledger, m: Message, storage: bool)
    requires Balanced(l) && Backed(l, m) && !InState(l, m.order, Confirmed)
    ensures var (status, l') := Confirmation(l, m.order, storage);
            && Balanced(l') && Extends(l, l') && OnlyOp(l, l', m.order)
            && (status == Ok <==> storage && InState(l, m.order, Reserved))
            && (status == Ok ==> InState(l', m.order, Confirmed))
            && (status != Ok ==> l' == l)
  {
    hide Total;
    var sku := l.reservations[m.order].sku;
    if Attempt(l, Confirm(m.order), sku).Changed? {
      AttemptIsLegal(l, Confirm(m.order), sku);
      UndoInvertsLand(l, Confirm(m.order), sku);
      LandKeepsBalance(l, Attempt(l, Confirm(m.order), sku).change);
    }
  }

  /** Then the quantity is sold. */
  lemma ConfirmSells(l: Ledger, m: Message)
    requires Balanced(l) && Backed(l, m) && InState(l, m.order, Reserved)
    ensures forall sku :: sku in l.stocks ==>
              && sku in Confirmation(l, m.order, true).1.stocks
              && Confirmation(l, m.order, true).1.stocks[sku].sold == l.stocks[sku].sold + if sku == m.sku then m.quantity else 0
  {
    hide Total;
  }

  // ----- The invariant -----

  function Sold(ms: seq<Message>, sku: Sku): int {
    if ms == [] then 0 else (if ms[0].sku == sku then ms[0].quantity else 0) + Sold(ms[1..], sku)
  }

  lemma {:induction false} SoldAppend(ms: seq<Message>, m: Message, sku: Sku)
    ensures Sold(ms + [m], sku) == Sold(ms, sku) + if m.sku == sku then m.quantity else 0
  {
    if ms == [] {
      assert ms + [m] == [m] && [m][1..] == [];
    } else {
      assert (ms + [m])[1..] == ms[1..] + [m];
      SoldAppend(ms[1..], m, sku);
    }
  }

  ghost predicate Covered(s: State, op: Op) {
    exists m :: Liable(s, m) && m.order == op
  }

  predicate Done(s: State, op: Op) {
    exists i :: 0 <= i < |s.processed| && s.processed[i].order == op
  }

  /** Of the operations that were given back so far: those whose write failed, and those whose write succeeded. */
  datatype History = History(kept: set<Op>, given: set<Op>)

  /** The operation a step gives back, and whether the write succeeds. */
  function Returned(s: State, e: Event): Option<(Op, bool)>
    requires Enabled(s, e)
  {
    match e
    case ReturnStock(i, storage) => Some((s.submitters[i].message.order, storage))
    case UndoStock(i, storage) => Some((s.workers[i].message.order, storage))
    case _ => None
  }

  function Note(h: History, s: State, e: Event): History
    requires Enabled(s, e)
  {
    match Returned(s, e)
    case None => h
    case Some((op, storage)) => if storage then h.(given := h.given + {op}) else h.(kept := h.kept + {op})
  }

  /**
   Every reserved operation is owned by a submitter, a queued message or a worker, unless giving it back
   failed; every confirmed one has been processed; the released ones are those given back; and what is
   sold is what was processed.
   */
  ghost predicate StockInv(s: State, h: History) {
    && Balanced(s.ledger)
    && ReservedCovered(s, h.kept)
    && (forall m :: Liable(s, m) ==> Backed(s.ledger, m))
    && ConfirmedDone(s)
    && (forall op :: InState(s.ledger, op, Released) <==> op in h.given)
    && SoldAsProcessed(s)
  }

  ghost predicate ReservedCovered(s: State, kept: set<Op>) {
    forall op :: InState(s.ledger, op, Reserved) ==> Covered(s, op) || op in kept
  }

  ghost predicate ConfirmedDone(s: State) {
    forall op :: InState(s.ledger, op, Confirmed) ==> Done(s, op)
  }

  predicate SoldAsProcessed(s: State) {
    forall sku :: sku in s.ledger.stocks ==> s.ledger.stocks[sku].sold == Sold(s.processed, sku)
  }

  /** All owners but that of one message, which is no longer reserved or is left, stay. */
  lemma StillCovered(s: State, s': State, kept: set<Op>, kept': set<Op>, m: Message)
    requires ReservedCovered(s, kept) && OnlyOp(s.ledger, s'.ledger, m.order) && kept <= kept'
    requires forall x :: Liable(s, x) && x != m ==> Liable(s', x)
    requires InState(s'.ledger, m.order, Reserved) ==> m.order in kept'
    ensures ReservedCovered(s', kept')
  {
    hide Liable;
    forall op | InState(s'.ledger, op, Reserved) && op !in kept' ensures Covered(s', op) {
      assert op != m.order && InState(s.ledger, op, Reserved);
      var x :| Liable(s, x) && x.order == op;
      assert Liable(s', x);
    }
  }

  lemma MoreDone(s: State, s': State, m: Message)
    requires ConfirmedDone(s) && OnlyOp(s.ledger, s'.ledger, m.order) && s'.processed == s.processed + [m]
    ensures ConfirmedDone(s')
  {
    forall op | InState(s'.ledger, op, Confirmed) ensures Done(s', op) {
      if op == m.order {
        assert s'.processed[|s.processed|].order == op;
      } else {
        assert InState(s.ledger, op, Confirmed);
        var i :| 0 <= i < |s.processed| && s.processed[i].order == op;
        assert s'.processed[i].order == op;
      }
    }
  }

  lemma SameDone(s: State, s': State, op: Op)
    requires ConfirmedDone(s) && OnlyOp(s.ledger, s'.ledger, op) && s'.processed == s.processed
    requires InState(s'.ledger, op, Confirmed) ==> InState(s.ledger, op, Confirmed)
    ensures ConfirmedDone(s')
  {
    forall x | InState(s'.ledger, x, Confirmed) ensures Done(s', x) {
      assert InState(s.ledger, x, Confirmed);
      assert Done(s, x);
    }
  }

  lemma MoreSold(s: State, s': State, m: Message)
    requires SoldAsProcessed(s) && s'.processed == s.processed + [m] && s'.ledger.stocks.Keys == s.ledger.stocks.Keys
    requires forall sku :: sku in s.ledger.stocks ==>
               s'.ledger.stocks[sku].sold == s.ledger.stocks[sku].sold + if sku == m.sku then m.quantity else 0
    ensures SoldAsProcessed(s')
  {
    hide Sold;
    forall sku | sku in s'.ledger.stocks ensures s'.ledger.stocks[sku].sold == Sold(s'.processed, sku) {
      SoldAppend(s.processed, m, sku);
    }
  }

  /** A step that changes no stock and no owner. */
  lemma SameOwners(s: State, s': State, h: History)
    requires StockInv(s, h) && s'.ledger == s.ledger && s'.processed == s.processed
    requires forall m :: Liable(s', m) <==> Liable(s, m)
    ensures StockInv(s', h)
  {
    hide Balanced, Liable, Sold;
    forall op | InState(s'.ledger, op, Reserved) && op !in h.kept ensures Covered(s', op) {
      assert Covered(s, op);
      var m :| Liable(s, m) && m.order == op;
      assert Liable(s', m);
    }
    forall op | InState(s'.ledger, op, Confirmed) ensures Done(s', op) { assert Done(s, op); }
  }

  /** A step that takes the stock of one message and, when it got it, makes its owner liable. */
  lemma OwnerGains(s: State, s': State, h: History, m: Message, storage: bool)
    requires StockInv(s, h) && s'.processed == s.processed && m.quantity > 0 && m.sku != "" && m.order != ""
    requires s'.ledger == Take(s.ledger, m, storage).1
    requires forall x :: Liable(s, x) ==> Liable(s', x)
    requires forall x :: Liable(s', x) && !Liable(s, x) ==> x == m && Take(s.ledger, m, storage).0 == Ok
    requires Take(s.ledger, m, storage).0 == Ok ==> Liable(s', m)
    ensures StockInv(s', h)
  {
    TakeEffect(s.ledger, m, storage);
    hide Balanced, Liable, Sold, Take;
    forall op | InState(s'.ledger, op, Reserved) && op !in h.kept ensures Covered(s', op) {
      if op == m.order && Take(s.ledger, m, storage).0 == Ok {
        assert Liable(s', m);
      } else {
        assert InState(s.ledger, op, Reserved);
        var x :| Liable(s, x) && x.order == op;
        assert Liable(s', x);
      }
    }
    forall op | InState(s'.ledger, op, Confirmed) ensures Done(s', op) {
      assert InState(s.ledger, op, Confirmed);
      assert Done(s, op);
    }
    forall op ensures InState(s'.ledger, op, Released) <==> op in h.given {
      assert InState(s'.ledger, op, Released) <==> InState(s.ledger, op, Released);
    }
  }

  /** A step that gives the stock of one message back, whose owner stops being liable. */
  lemma OwnerGives(s: State, s': State, h: History, m: Message, storage: bool)
    requires StockInv(s, h) && s'.processed == s.processed && Liable(s, m) && !Done(s, m.order)
    requires s'.ledger == Give(s.ledger, m.order, storage).1
    requires forall x :: Liable(s', x) ==> Liable(s, x)
    requires forall x :: Liable(s, x) && x != m ==> Liable(s', x)
    ensures StockInv(s', if storage then h.(given := h.given + {m.order}) else h.(kept := h.kept + {m.order}))
  {
    GiveEffect(s.ledger, m.order, storage);
    hide Balanced, Sold, Give, Liable, ReservedCovered, ConfirmedDone, SoldAsProcessed;
    assert Backed(s.ledger, m);
    assert !InState(s.ledger, m.order, Confirmed) by { NotConfirmed(s, m.order); }
    StillCovered(s, s', h.kept, if storage then h.kept else h.kept + {m.order}, m);
    SameDone(s, s', m.order);
    SameSoldStays(s, s');
    GivenBack(s.ledger, s'.ledger, h.given, m.order, storage);
  }

  lemma NotConfirmed(s: State, op: Op)
    requires ConfirmedDone(s) && !Done(s, op)
    ensures !InState(s.ledger, op, Confirmed)
  {
    hide Done;
  }

  lemma SameSoldStays(s: State, s': State)
    requires SoldAsProcessed(s) && SameSold(s.ledger, s'.ledger) && s'.processed == s.processed
    requires s'.ledger.stocks.Keys == s.ledger.stocks.Keys
    ensures SoldAsProcessed(s')
  {
    hide Sold;
  }

  lemma GivenBack(l: Ledger, l': Ledger, given: set<Op>, op: Op, storage: bool)
    requires (forall o :: InState(l, o, Released) <==> o in given) && OnlyOp(l, l', op)
    requires op in l.reservations && !InState(l, op, Confirmed)
    requires InState(l', op, Released) <==> InState(l, op, Released) || (storage && InState(l, op, Reserved))
    ensures forall o :: InState(l', o, Released) <==> o in (if storage then given + {op} else given)
  {
    assert InState(l, op, Reserved) || InState(l, op, Released);
    forall o | o != op ensures InState(l', o, Released) <==> o in given {
      assert InState(l', o, Released) <==> InState(l, o, Released);
    }
  }

  /** A step that confirms the stock of one message, which joins the processed ones. */
  lemma OwnerSettles(s: State, s': State, h: History, m: Message)
    requires StockInv(s, h) && Backed(s.ledger, m) && InState(s.ledger, m.order, Reserved)
    requires s'.ledger == Confirmation(s.ledger, m.order, true).1 && s'.processed == s.processed + [m]
    requires forall x :: Liable(s', x) ==> Liable(s, x)
    requires forall x :: Liable(s, x) && x != m ==> Liable(s', x)
    ensures StockInv(s', h)
  {
    ConfirmEffect(s.ledger, m, true);
    ConfirmSells(s.ledger, m);
    StillCovered(s, s', h.kept, h.kept, m);
    MoreDone(s, s', m);
    hide Confirmation;
    MoreSold(s, s', m);
    hide Balanced, Liable, ReservedCovered, ConfirmedDone, SoldAsProcessed;
    forall op ensures InState(s'.ledger, op, Released) <==> op in h.given {
      assert InState(s'.ledger, op, Released) <==> InState(s.ledger, op, Released);
    }
  }

  // ----- Every step -----

  lemma EnterKeepsStock(s: State, e: Event, h: History)
    requires StockInv(s, h) && Enabled(s, e) && (e.Enter? || e.MoveGate? || e.Pop?)
    ensures StockInv(Do(s, e), h)
  {
    hide StockInv, OrderId;
    var s' := Do(s, e);
    forall m ensures Liable(s', m) <==> Liable(s, m) {
      if e.Enter? && G.Decide(s.gate, e.user) == G.Accepted { SubmitterJoins(s, s', m); }
      if e.Pop? { QueueToWorker(s, s', m); }
    }
    SameOwners(s, s', h);
  }

  lemma SubmitterJoins(s: State, s': State, m: Message)
    requires |s'.submitters| == |s.submitters| + 1 && s'.submitters[..|s.submitters|] == s.submitters
    requires s'.submitters[|s.submitters|].stage == Entered
    ensures SubmitterHolds(s'.submitters, m) <==> SubmitterHolds(s.submitters, m)
  {
    if SubmitterHolds(s'.submitters, m) {
      var i :| 0 <= i < |s'.submitters| && StageHolds(s'.submitters[i].stage) && s'.submitters[i].message == m;
      assert s.submitters[i] == s'.submitters[..|s.submitters|][i];
    }
    if SubmitterHolds(s.submitters, m) {
      var i :| 0 <= i < |s.submitters| && StageHolds(s.submitters[i].stage) && s.submitters[i].message == m;
      assert s'.submitters[i] == s'.submitters[..|s.submitters|][i];
    }
  }

  lemma QueueToWorker(s: State, s': State, m: Message)
    requires Enabled(s, Pop) && s' == Do(s, Pop)
    ensures Liable(s', m) <==> Liable(s, m)
  {
    assert s.queue == [s.queue[0]] + s.queue[1..];
    if WorkerHolds(s'.workers, m) {
      var i :| 0 <= i < |s'.workers| && s'.workers[i].stage != Quitting && s'.workers[i].message == m;
      assert i < |s.workers| ==> s.workers[i] == s'.workers[i];
    }
    if WorkerHolds(s.workers, m) {
      var i :| 0 <= i < |s.workers| && s.workers[i].stage != Quitting && s.workers[i].message == m;
      assert s'.workers[i] == s.workers[i];
    }
    assert s'.workers[|s.workers|].message == s.queue[0] && s'.workers[|s.workers|].stage != Quitting;
  }

  lemma SubmitterKeepsStock(s: State, e: Event, h: History)
    requires TokenInv(s) && StockInv(s, h) && Enabled(s, e)
    requires e.TakeStock? || e.Enqueue? || e.ReturnStock? || e.ReturnToken?
    ensures StockInv(Do(s, e), Note(h, s, e))
  {
    hide StockInv, OrderId, Take, Give, SubmitterHolds, WorkerHolds, Tokens;
    var s', i := Do(s, e), e.i;
    var m := s.submitters[i].message;
    assert OfSubmitters(s.submitters)[i] == m;
    forall x
      ensures e.Enqueue? || e.ReturnToken? ==> (Liable(s', x) <==> Liable(s, x))
      ensures x != m ==> (Liable(s', x) <==> Liable(s, x))
      ensures e.TakeStock? ==> (Liable(s, x) ==> Liable(s', x))
      ensures e.TakeStock? && Take(s.ledger, m, e.storage).0 != Ok ==> (Liable(s', x) <==> Liable(s, x))
      ensures e.TakeStock? && Take(s.ledger, m, e.storage).0 == Ok ==> Liable(s', m)
      ensures e.ReturnStock? ==> (Liable(s', x) ==> Liable(s, x))
    {
      SubmitterGone(s.submitters, i, x);
      SubmitterMoves(s.submitters, i, Holding, x);
      SubmitterMoves(s.submitters, i, Returning, x);
      SubmitterMoves(s.submitters, i, Leaving, x);
      if s.submitters[i].stage == Holding { SubmitterAt(s.submitters, i); }
    }
    match e
    case TakeStock(_, storage) => OwnerGains(s, s', h, m, storage);
    case Enqueue(_, _) => SameOwners(s, s', h);
    case ReturnStock(_, storage) =>
      SubmitterAt(s.submitters, i);
      SubmitterPosition(s, i);
      OwnerIsNotDone(s, i);
      OwnerGives(s, s', h, m, storage);
    case ReturnToken(_) => SameOwners(s, s', h);
  }

  lemma SubmitterAt(ss: seq<Submitter>, i: nat)
    requires i < |ss| && StageHolds(ss[i].stage)
    ensures SubmitterHolds(ss, ss[i].message)
  {}

  lemma WorkerAt(ws: seq<Worker>, i: nat)
    requires i < |ws| && ws[i].stage != Quitting
    ensures WorkerHolds(ws, ws[i].message)
  {}

  // ----- Owners by position -----

  /** All owners of admissions in one line. */
  function Owners(s: State): seq<Message> {
    OfSubmitters(s.submitters) + s.queue + OfWorkers(s.workers) + s.processed
  }

  /** The owner at a position may have stock reserved. */
  predicate HoldsAt(s: State, a: nat)
    requires a < |Owners(s)|
  {
    var q := |s.submitters|;
    var w := q + |s.queue|;
    if a < q then StageHolds(s.submitters[a].stage)
    else if a < w then true
    else a - w < |s.workers| && s.workers[a - w].stage != Quitting
  }

  lemma OwnersTally(s: State)
    ensures Tally(Owners(s)) == Tokens(s)
  {
    hide Tally;
    TallyConcat(OfSubmitters(s.submitters) + s.queue + OfWorkers(s.workers), s.processed);
    TallyConcat(OfSubmitters(s.submitters) + s.queue, OfWorkers(s.workers));
    TallyConcat(OfSubmitters(s.submitters), s.queue);
  }

  lemma OwnerNamed(s: State, a: nat)
    requires TokenInv(s) && a < |Owners(s)|
    ensures Owners(s)[a].order == OrderId(s.promotion, Owners(s)[a].user)
  {
    hide Tally, OrderId, G.Sound;
  }

  /** Different owners have different orders. */
  lemma OwnersDiffer(s: State, a: nat, b: nat)
    requires TokenInv(s) && a < |Owners(s)| && b < |Owners(s)| && a != b
    ensures Owners(s)[a].order != Owners(s)[b].order
  {
    hide Named, Tokens, G.Sound, OrderId, Owners;
    OwnerNamed(s, a);
    OwnerNamed(s, b);
    OwnersTally(s);
    TallyTwice(Owners(s), a, b);
    OnceInSet(s.gate.users, Owners(s)[a].user);
    hide Tally;
    OrderIdInjective(s.promotion, Owners(s)[a].user, Owners(s)[b].user);
  }

  lemma OnceInSet(users: set<string>, user: string)
    ensures multiset(users)[user] <= 1
  {}

  /** A user at two places is counted twice. */
  lemma TallyTwice(all: seq<Message>, a: nat, b: nat)
    requires a < |all| && b < |all| && a != b
    ensures all[a].user == all[b].user ==> Tally(all)[all[a].user] >= 2
  {
    hide Tally;
    var rest, c := Without(all, a), if b < a then b else b - 1;
    TallyWithout(all, a);
    assert rest[c] == all[b];
    TallyWithout(rest, c);
  }

  lemma SubmitterPosition(s: State, i: nat)
    requires i < |s.submitters|
    ensures i < |Owners(s)| && Owners(s)[i] == s.submitters[i].message && (HoldsAt(s, i) <==> StageHolds(s.submitters[i].stage))
  {}

  lemma WorkerPosition(s: State, i: nat) returns (a: nat)
    requires i < |s.workers|
    ensures a < |Owners(s)| && Owners(s)[a] == s.workers[i].message && (HoldsAt(s, a) <==> s.workers[i].stage != Quitting)
    ensures a < |Owners(s)| - |s.processed|
  {
    a := |s.submitters| + |s.queue| + i;
  }

  lemma LiablePosition(s: State, m: Message) returns (a: nat)
    requires Liable(s, m)
    ensures a < |Owners(s)| - |s.processed| && Owners(s)[a] == m && HoldsAt(s, a)
  {
    if SubmitterHolds(s.submitters, m) {
      a :| 0 <= a < |s.submitters| && StageHolds(s.submitters[a].stage) && s.submitters[a].message == m;
    } else if m in s.queue {
      var i :| 0 <= i < |s.queue| && s.queue[i] == m;
      a := |s.submitters| + i;
    } else {
      var i :| 0 <= i < |s.workers| && s.workers[i].stage != Quitting && s.workers[i].message == m;
      a := WorkerPosition(s, i);
    }
  }

  /** An owner in flight has no processed order. */
  lemma OwnerIsNotDone(s: State, a: nat)
    requires TokenInv(s) && a < |Owners(s)| - |s.processed|
    ensures !Done(s, Owners(s)[a].order)
  {
    hide TokenInv;
    var n := |Owners(s)| - |s.processed|;
    forall j | 0 <= j < |s.processed| ensures s.processed[j].order != Owners(s)[a].order {
      assert Owners(s)[n + j] == s.processed[j];
      OwnersDiffer(s, a, n + j);
    }
  }

  /** The order of an owner that holds no stock is nobody else's. */
  lemma OthersDoNotCover(s: State, a: nat)
    requires TokenInv(s) && a < |Owners(s)| && !HoldsAt(s, a)
    ensures !Covered(s, Owners(s)[a].order)
  {
    hide TokenInv, Liable, Owners, HoldsAt;
    forall m | Liable(s, m) ensures m.order != Owners(s)[a].order {
      var b := LiablePosition(s, m);
      OwnersDiffer(s, a, b);
    }
  }

  lemma OrderIdInjective(promotion: string, a: string, b: string)
    ensures OrderId(promotion, a) == OrderId(promotion, b) <==> a == b
  {
    var n := |"flash-order-" + promotion + "-"|;
    assert OrderId(promotion, a)[n..] == a && OrderId(promotion, b)[n..] == b;
  }

  lemma WorkerKeepsStock(s: State, e: Event, h: History)
    requires TokenInv(s) && StockInv(s, h) && Enabled(s, e)
    requires e.StoreOrder? || e.Bury? || e.UndoStock? || e.UndoToken?
    ensures StockInv(Do(s, e), Note(h, s, e))
  {
    hide StockInv, OrderId, Give, SubmitterHolds, WorkerHolds, Tokens;
    var s', i := Do(s, e), e.i;
    var m := s.workers[i].message;
    forall x
      ensures !e.UndoStock? ==> (Liable(s', x) <==> Liable(s, x))
      ensures x != m ==> (Liable(s', x) <==> Liable(s, x))
      ensures Liable(s', x) ==> Liable(s, x)
    {
      if e.UndoToken? { WorkerGone(s.workers, i, x); } else { WorkerMoves(s.workers, i, s'.workers[i].stage, x); }
    }
    if e.UndoStock? {
      WorkerAt(s.workers, i);
      var a := WorkerPosition(s, i);
      OwnerIsNotDone(s, a);
      OwnerGives(s, s', h, m, e.storage);
    } else {
      SameOwners(s, s', h);
    }
  }

  lemma SettleKeepsStock(s: State, i: nat, storage: bool, h: History)
    requires TokenInv(s) && StockInv(s, h) && Enabled(s, Settle(i, storage))
    ensures StockInv(Do(s, Settle(i, storage)), h)
  {
    var s' := Do(s, Settle(i, storage));
    var m := s.workers[i].message;
    var a := WorkerPosition(s, i);
    OwnerIsNotDone(s, a);
    WorkerAt(s.workers, i);
    assert Backed(s.ledger, m) && !InState(s.ledger, m.order, Confirmed);
    ConfirmEffect(s.ledger, m, storage);
    hide StockInv, OrderId, Confirmation, SubmitterHolds, WorkerHolds, Tokens;
    if Confirmation(s.ledger, m.order, storage).0 == Ok {
      forall x
        ensures x != m ==> (Liable(s', x) <==> Liable(s, x))
        ensures Liable(s', x) ==> Liable(s, x)
      {
        WorkerGone(s.workers, i, x);
      }
      OwnerSettles(s, s', h, m);
    } else {
      forall x ensures Liable(s', x) <==> Liable(s, x) {
        WorkerMoves(s.workers, i, s'.workers[i].stage, x);
      }
      SameOwners(s, s', h);
    }
  }

  /** Every step, whatever write fails, keeps the stock accounted for. */
  lemma StepKeepsStock(s: State, e: Event, h: History)
    requires TokenInv(s) && StockInv(s, h) && Enabled(s, e)
    ensures StockInv(Do(s, e), Note(h, s, e))
  {
    hide StockInv, TokenInv;
    match e
    case MoveGate(_) => EnterKeepsStock(s, e, h);
    case Enter(_, _, _, _) => EnterKeepsStock(s, e, h);
    case Pop => EnterKeepsStock(s, e, h);
    case TakeStock(_, _) => SubmitterKeepsStock(s, e, h);
    case Enqueue(_, _) => SubmitterKeepsStock(s, e, h);
    case ReturnStock(_, _) => SubmitterKeepsStock(s, e, h);
    case ReturnToken(_) => SubmitterKeepsStock(s, e, h);
    case StoreOrder(_, _) => WorkerKeepsStock(s, e, h);
    case Settle(i, storage) => SettleKeepsStock(s, i, storage, h);
    case Bury(_, _) => WorkerKeepsStock(s, e, h);
    case UndoStock(_, _) => WorkerKeepsStock(s, e, h);
    case UndoToken(_) => WorkerKeepsStock(s, e, h);
  }

  // ----- Runs -----

  predicate CanRun(s: State, es: seq<Event>)
    decreases |es|
  {
    es == [] || (Enabled(s, es[0]) && CanRun(Do(s, es[0]), es[1..]))
  }

  function Run(s: State, es: seq<Event>): State
    requires CanRun(s, es)
    decreases |es|
  {
    if es == [] then s else Run(Do(s, es[0]), es[1..])
  }

  /** A promotion that has been configured over a stocked, unused inventory. */
  ghost predicate Initial(s: State) {
    && s.gate == G.Gate(s.gate.quota, 0, G.Created, {})
    && s.submitters == [] && s.queue == [] && s.workers == [] && s.processed == [] && s.buried == []
    && Balanced(s.ledger) && s.ledger.reservations == map[]
  }

  lemma InitialInv(s: State)
    requires Initial(s)
    ensures TokenInv(s) && StockInv(s, NONE)
  {}

  const NONE: History := History({}, {})

  /** What was given back along a run. */
  function NoteAll(h: History, s: State, es: seq<Event>): History
    requires CanRun(s, es)
    decreases |es|
  {
    if es == [] then h else NoteAll(Note(h, s, es[0]), Do(s, es[0]), es[1..])
  }

  lemma {:induction false} RunKeepsTokens(s: State, es: seq<Event>)
    requires TokenInv(s) && CanRun(s, es)
    ensures TokenInv(Run(s, es)) && Run(s, es).gate.quota == s.gate.quota
    decreases |es|
  {
    hide TokenInv;
    if es != [] {
      StepKeepsTokens(s, es[0]);
      assert Do(s, es[0]).gate.quota == s.gate.quota by { hide Perform; }
      RunKeepsTokens(Do(s, es[0]), es[1..]);
    }
  }

  lemma {:induction false} RunKeepsStock(s: State, es: seq<Event>, h: History)
    requires TokenInv(s) && StockInv(s, h) && CanRun(s, es)
    ensures StockInv(Run(s, es), NoteAll(h, s, es))
    decreases |es|
  {
    hide TokenInv, StockInv, Do, Enabled, Note;
    if es != [] {
      StepKeepsTokens(s, es[0]);
      StepKeepsStock(s, es[0], h);
      RunKeepsStock(Do(s, es[0]), es[1..], Note(h, s, es[0]));
    }
  }

  lemma OwnersAreCounted(f: State)
    requires TokenInv(f)
    ensures f.gate.admitted == |f.gate.users| <= f.gate.quota && Tokens(f) == multiset(f.gate.users)
    ensures f.gate.admitted == |f.submitters| + |f.queue| + |f.workers| + |f.processed|
  {
    hide Tally, OrderId, Named;
    TallySize(OfSubmitters(f.submitters));
    TallySize(f.queue);
    TallySize(OfWorkers(f.workers));
    TallySize(f.processed);
    assert |Tokens(f)| == |multiset(f.gate.users)|;
  }

  /**
   In every interleaving, whatever fails: the admitted users are those of the submitters in flight, the queued
   messages, the messages workers hold and the processed orders, each exactly once, so their number is
   the gate's counter and never exceeds the quota.
   */
  lemma EveryRunConservesTokens(s: State, es: seq<Event>)
    requires Initial(s) && CanRun(s, es)
    ensures var f := Run(s, es);
            && f.gate.admitted == |f.gate.users|
            && f.gate.admitted == |f.submitters| + |f.queue| + |f.workers| + |f.processed|
            && f.gate.admitted <= s.gate.quota
            && Tokens(f) == multiset(f.gate.users)
  {
    InitialInv(s);
    RunKeepsTokens(s, es);
    hide TokenInv, CanRun, Run;
    OwnersAreCounted(Run(s, es));
  }

  /** Some owner holds the stock of the operation, and its user has no other owner. */
  ghost predicate OwnedOnce(s: State, op: Op) {
    exists m :: Liable(s, m) && m.order == op == OrderId(s.promotion, m.user) && Tokens(s)[m.user] == 1
  }

  lemma OwnerIsAlone(s: State, m: Message)
    requires TokenInv(s) && Liable(s, m)
    ensures m.order == OrderId(s.promotion, m.user) && Tokens(s)[m.user] == 1
  {
    var a := LiablePosition(s, m);
    OwnerNamed(s, a);
    OwnersTally(s);
    hide OrderId, Tally, Owners;
    TallyWithout(Owners(s), a);
    assert m.user in Tokens(s);
    assert multiset(s.gate.users)[m.user] <= 1;
  }

  /**
   In every run, whatever fails: the ledger is balanced, sold is the sum of what was processed, and every reserved
   operation has exactly one owner or is one whose give-back failed to be written. So once the path has drained and no
   such write failed, nothing is left reserved.
   */
  lemma EveryRunAccountsForStock(s: State, es: seq<Event>)
    requires Initial(s) && CanRun(s, es)
    ensures var f, h := Run(s, es), NoteAll(NONE, s, es);
            && Balanced(f.ledger)
            && (forall sku :: sku in f.ledger.stocks ==> f.ledger.stocks[sku].sold == Sold(f.processed, sku))
            && (forall op :: InState(f.ledger, op, Reserved) ==> OwnedOnce(f, op) || op in h.kept)
            && (Drained(f) && h.kept == {} ==> forall sku :: sku in f.ledger.stocks ==> f.ledger.stocks[sku].reserved == 0)
  {
    InitialInv(s);
    RunKeepsTokens(s, es);
    RunKeepsStock(s, es, NONE);
    hide CanRun, Run, NoteAll, Total, Sold, TokenInv, Liable;
    var f, h := Run(s, es), NoteAll(NONE, s, es);
    forall op | InState(f.ledger, op, Reserved) && op !in h.kept ensures OwnedOnce(f, op) {
      var m :| Liable(f, m) && m.order == op;
      OwnerIsAlone(f, m);
    }
    if Drained(f) && h.kept == {} { DrainedIsEmpty(f, h); }
  }

  predicate Drained(s: State) {
    s.submitters == [] && s.queue == [] && s.workers == []
  }

  lemma DrainedIsEmpty(f: State, h: History)
    requires StockInv(f, h) && Drained(f) && h.kept == {}
    ensures forall sku :: sku in f.ledger.stocks ==> f.ledger.stocks[sku].reserved == 0
  {
    hide Sold;
    assert forall m :: !Liable(f, m);
    assert forall op :: !Covered(f, op);
    assert forall op :: op in f.ledger.reservations && f.ledger.reservations[op].state == Reserved ==>
        InState(f.ledger, op, Reserved);
    forall sku | sku in f.ledger.stocks ensures f.ledger.stocks[sku].reserved == 0 {
      TotalBounds(f.ledger.reservations, sku, Reserved);
    }
  }

  /**
   In every run, a message that a submitter, the queue or a worker holds has reserved stock behind it exactly when its
   order was never given back; a user who comes again after a compensation is queued without stock.
   */
  lemma HeldMessageHasStockIff(s: State, es: seq<Event>, m: Message)
    requires Initial(s) && CanRun(s, es) && Liable(Run(s, es), m)
    ensures InState(Run(s, es).ledger, m.order, Reserved) <==> m.order !in NoteAll(NONE, s, es).given
  {
    InitialInv(s);
    RunKeepsTokens(s, es);
    RunKeepsStock(s, es, NONE);
    hide CanRun, Run, NoteAll, Total, Sold, TokenInv;
    var f := Run(s, es);
    var a := LiablePosition(f, m);
    OwnerIsNotDone(f, a);
    assert Backed(f.ledger, m) && !InState(f.ledger, m.order, Confirmed);
  }

  // ----- A give-back that fails -----

  /** Every reserved operation has an owner. */
  ghost predicate AllCovered(s: State) {
    forall op :: InState(s.ledger, op, Reserved) ==> Covered(s, op)
  }

  /** The step gives back a reserved operation and the write fails. */
  predicate Leaks(s: State, e: Event)
    requires Enabled(s, e)
  {
    match Returned(s, e)
    case None => false
    case Some((op, storage)) => !storage && InState(s.ledger, op, Reserved)
  }

  /** A step leaves reserved stock without an owner exactly when it gives back reserved stock and that write fails. */
  lemma StepCoversIff(s: State, e: Event, h: History)
    requires TokenInv(s) && StockInv(s, h) && AllCovered(s) && Enabled(s, e)
    ensures AllCovered(Do(s, e)) <==> !Leaks(s, e)
  {
    var none := h.(kept := {});
    assert StockInv(s, none) by { NothingKept(s, h); }
    hide StockInv, TokenInv, Do, Covered, Returned, AllCovered, InState;
    StepKeepsStock(s, e, none);
    if Returned(s, e).Some? && !Returned(s, e).value.1 {
      var op := Returned(s, e).value.0;
      FailedGiveBack(s, e, none);
      assert Note(none, s, e).kept == {op};
      CoversButOne(Do(s, e), Note(none, s, e), op);
    } else {
      NothingKept(Do(s, e), Note(none, s, e));
    }
  }

  /** Without a failed give-back, covered or kept is covered. */
  lemma NothingKept(s: State, h: History)
    requires StockInv(s, h) && (h.kept == {} || AllCovered(s))
    ensures StockInv(s, h.(kept := {})) && AllCovered(s)
  {
    hide Balanced, Liable, Sold, Covered;
  }

  lemma CoversButOne(s: State, h: History, op: Op)
    requires StockInv(s, h) && h.kept == {op} && !Covered(s, op)
    ensures AllCovered(s) <==> !InState(s.ledger, op, Reserved)
  {
    hide Balanced, Liable, Sold, Covered;
  }

  /** Then the ledger is as before and the one who gave back is the only owner of the order. */
  lemma FailedGiveBack(s: State, e: Event, h: History)
    requires TokenInv(s) && StockInv(s, h) && Enabled(s, e) && Returned(s, e).Some? && !Returned(s, e).value.1
    ensures Do(s, e).ledger == s.ledger && !Covered(Do(s, e), Returned(s, e).value.0)
  {
    StepKeepsTokens(s, e);
    GiveEffect(s.ledger, Returned(s, e).value.0, false);
    hide StockInv, TokenInv, Give, Covered;
    var s' := Do(s, e);
    if e.ReturnStock? {
      SubmitterPosition(s', e.i);
      OthersDoNotCover(s', e.i);
    } else {
      var a := WorkerPosition(s', e.i);
      OthersDoNotCover(s', a);
    }
  }

  /** The order repository fails `n` attempts. */
  function FailedStores(n: nat): seq<Event> {
    if n == 0 then [] else [StoreOrder(0, false)] + FailedStores(n - 1)
  }

  /** `compensate`: the message is buried, the release is not written, and the token goes back. */
  function Compensation(): seq<Event> {
    [Bury(0, true), UndoStock(0, false), UndoToken(0)]
  }

  /** A promotion is opened, and a user enters and takes stock. */
  function TakenRun(user: string, sku: Sku, quantity: int, key: string): seq<Event> {
    [MoveGate(G.Preheating), MoveGate(G.Running), Enter(user, sku, quantity, key), TakeStock(0, true)]
  }

  /** The message is queued and popped. */
  function QueuedRun(user: string, sku: Sku, quantity: int, key: string): seq<Event> {
    TakenRun(user, sku, quantity, key) + [Enqueue(0, true), Pop]
  }

  /** Then all attempts to store the order fail. */
  function LeakRun(user: string, sku: Sku, quantity: int, key: string, attempts: nat): seq<Event> {
    QueuedRun(user, sku, quantity, key) + (FailedStores(attempts) + Compensation())
  }

  lemma {:induction false} StoresFail(s: State, m: Message, attempt: nat, n: nat)
    requires s.workers == [Worker(m, Trying(attempt, false))] && n > 0 && attempt + n == s.maxAttempts + 1
    ensures CanRun(s, FailedStores(n)) && Run(s, FailedStores(n)) == s.(workers := [Worker(m, Burying)])
    decreases n
  {
    hide CanRun, Run;
    var es := FailedStores(n);
    var s1 := Do(s, es[0]);
    assert es[1..] == FailedStores(n - 1);
    RunFirst(s, es);
    if n > 1 {
      assert s1 == s.(workers := [Worker(m, Trying(attempt + 1, false))]);
      StoresFail(s1, m, attempt + 1, n - 1);
      assert s1.(workers := [Worker(m, Burying)]) == s.(workers := [Worker(m, Burying)]);
    } else {
      assert FailedStores(0) == [];
      assert s1 == s.(workers := [Worker(m, Burying)]);
    }
  }

  lemma CompensationLeaves(s: State, m: Message)
    requires s.workers == [Worker(m, Burying)]
    ensures CanRun(s, Compensation())
    ensures Run(s, Compensation()) == s.(gate := G.Rollback(s.gate, m.user), workers := [], buried := s.buried + [m])
  {
    hide Give, CanRun, Run;
    var es := Compensation();
    var s1 := Do(s, es[0]);
    assert s1 == s.(buried := s.buried + [m], workers := [Worker(m, Undoing)]);
    UnwrittenGive(s.ledger, m.order);
    var s2 := Do(s1, es[1]);
    assert s2 == s1.(workers := [Worker(m, Quitting)]);
    assert Do(s2, es[2]).workers == [];
    RunFirst(s, es);
    RunFirst(s1, es[1..]);
    RunFirst(s2, es[2..]);
  }

  lemma {:induction false} RunBoth(s: State, a: seq<Event>, b: seq<Event>)
    requires CanRun(s, a)
    ensures CanRun(s, a + b) <==> CanRun(Run(s, a), b)
    ensures CanRun(s, a + b) ==> Run(s, a + b) == Run(Run(s, a), b)
    decreases |a|
  {
    hide Do, Enabled;
    if a == [] {
      assert a + b == b;
    } else {
      assert (a + b)[1..] == a[1..] + b;
      RunBoth(Do(s, a[0]), a[1..], b);
    }
  }

  lemma UnwrittenGive(l: Ledger, op: Op)
    ensures Give(l, op, false).1 == l
  {}

  lemma TakenRunTakes(s: State, user: string, sku: Sku, quantity: int, key: string)
    requires Initial(s) && s.gate.quota > 0 && sku in s.ledger.stocks && 0 < quantity <= s.ledger.stocks[sku].available
    requires user != "" && sku != "" && key != ""
    ensures CanRun(s, TakenRun(user, sku, quantity, key))
    ensures var f := Run(s, TakenRun(user, sku, quantity, key));
            && f.submitters == [Submitter(Message(user, sku, quantity, OrderId(s.promotion, user), key), Holding)]
            && f.workers == [] && f.queue == [] && f.gate.users == {user} && f.maxAttempts == s.maxAttempts
            && sku in f.ledger.stocks && f.ledger.stocks[sku].reserved == s.ledger.stocks[sku].reserved + quantity
  {
    hide Total, OrderId;
    var es := TakenRun(user, sku, quantity, key);
    var m := Message(user, sku, quantity, OrderId(s.promotion, user), key);
    var s1 := Do(s, es[0]);
    var s2 := Do(s1, es[1]);
    var s3 := Do(s2, es[2]);
    assert s3.submitters == [Submitter(m, Entered)];
    hide CanRun, Run;
    RunFirst(s, es);
    RunFirst(s1, es[1..]);
    RunFirst(s2, es[2..]);
    RunFirst(s3, es[3..]);
  }

  lemma QueuedAndPopped(s: State, m: Message)
    requires s.submitters == [Submitter(m, Holding)] && s.workers == [] && s.queue == [] && s.maxAttempts > 0
    ensures CanRun(s, [Enqueue(0, true), Pop])
    ensures Run(s, [Enqueue(0, true), Pop]) == s.(submitters := [], workers := [Worker(m, Trying(1, false))])
  {
    hide CanRun, Run;
    var es := [Enqueue(0, true), Pop];
    var s1 := Do(s, es[0]);
    assert s1 == s.(submitters := [], queue := [m]);
    RunFirst(s, es);
    RunFirst(s1, es[1..]);
  }

  lemma QueuedRunTakes(s: State, user: string, sku: Sku, quantity: int, key: string)
    requires Initial(s) && s.gate.quota > 0 && sku in s.ledger.stocks && 0 < quantity <= s.ledger.stocks[sku].available
    requires user != "" && sku != "" && key != "" && s.maxAttempts > 0
    ensures CanRun(s, QueuedRun(user, sku, quantity, key))
    ensures var f := Run(s, QueuedRun(user, sku, quantity, key));
            && f.workers == [Worker(Message(user, sku, quantity, OrderId(s.promotion, user), key), Trying(1, false))]
            && f.submitters == [] && f.queue == [] && f.gate.users == {user} && f.maxAttempts == s.maxAttempts
            && sku in f.ledger.stocks && f.ledger.stocks[sku].reserved == s.ledger.stocks[sku].reserved + quantity
  {
    hide CanRun, Run, OrderId, TakenRun, Initial;
    TakenRunTakes(s, user, sku, quantity, key);
    QueuedAndPopped(Run(s, TakenRun(user, sku, quantity, key)), Message(user, sku, quantity, OrderId(s.promotion, user), key));
    RunBoth(s, TakenRun(user, sku, quantity, key), [Enqueue(0, true), Pop]);
  }

  /**
   For every stock that can serve one request: the order is never stored, the message buried and its release not
   written. This run drains the path and leaves the quantity reserved.
   */
  lemma FailedReleaseLeaves(s: State, user: string, sku: Sku, quantity: int, key: string)
    requires Initial(s) && s.gate.quota > 0 && sku in s.ledger.stocks && 0 < quantity <= s.ledger.stocks[sku].available
    requires user != "" && sku != "" && key != "" && s.maxAttempts > 0
    ensures CanRun(s, LeakRun(user, sku, quantity, key, s.maxAttempts))
    ensures var f := Run(s, LeakRun(user, sku, quantity, key, s.maxAttempts));
            && Drained(f) && f.gate.users == {} && sku in f.ledger.stocks
            && f.ledger.stocks[sku].reserved == s.ledger.stocks[sku].reserved + quantity
  {
    hide CanRun, Run, OrderId, QueuedRun, FailedStores, Compensation, Initial;
    var m := Message(user, sku, quantity, OrderId(s.promotion, user), key);
    var a, b, c := QueuedRun(user, sku, quantity, key), FailedStores(s.maxAttempts), Compensation();
    QueuedRunTakes(s, user, sku, quantity, key);
    var f := Run(s, a);
    StoresFail(f, m, 1, s.maxAttempts);
    var g := Run(f, b);
    CompensationLeaves(g, m);
    RunBoth(f, b, c);
    RunBoth(s, a, b + c);
  }

  lemma RunFirst(s: State, es: seq<Event>)
    requires es != [] && Enabled(s, es[0])
    ensures CanRun(s, es) <==> CanRun(Do(s, es[0]), es[1..])
    ensures CanRun(s, es) ==> Run(s, es) == Run(Do(s, es[0]), es[1..])
    ensures |es| == 1 ==> CanRun(s, es) && Run(s, es) == Do(s, es[0])
  {
    hide Do, Enabled;
    if |es| == 1 { assert es[1..] == []; }
  }

  // ----- The gate only moves forward -----

  /** A step admits a user only while the promotion runs, and once finished it stays finished. */
  lemma AdmitsOnlyWhileRunning(s: State, e: Event)
    requires Enabled(s, e)
    ensures var s' := Do(s, e);
            && (s'.gate.users <= s.gate.users || (s.gate.state == G.Running && e.Enter? && s'.gate.users == s.gate.users + {e.user}))
            && (s.gate.state == G.Finished ==> s'.gate.state == G.Finished)
            && (s'.gate.state == G.Running ==> s.gate.state == G.Preheating || s.gate.state == G.Running)
  {
    hide Take, Give, Confirmation, OrderId;
  }

  /**
   After every run: a user who comes is admitted exactly when the promotion runs, nobody in flight, in the queue, at a
   worker or processed is that user, and these owners are fewer than the quota. Admitted, the user joins the submitters.
   */
  lemma EveryRunAdmitsWhileThereIsRoom(s: State, es: seq<Event>, user: string, sku: Sku, quantity: int, key: string)
    requires Initial(s) && CanRun(s, es) && Enabled(Run(s, es), Enter(user, sku, quantity, key))
    ensures var f := Run(s, es);
            var g := Do(f, Enter(user, sku, quantity, key));
            var m := Message(user, sku, quantity, OrderId(f.promotion, user), key);
            var room := && f.gate.state == G.Running && user !in Tokens(f)
                        && |f.submitters| + |f.queue| + |f.workers| + |f.processed| < s.gate.quota;
            && (room ==> g.gate.users == f.gate.users + {user}
                         && g.submitters == f.submitters + [Submitter(m, Entered)])
            && (!room ==> g == f)
  {
    InitialInv(s);
    RunKeepsTokens(s, es);
    var f := Run(s, es);
    hide CanRun, Run, Tokens, OrderId, Named;
    OwnersAreCounted(f);
    G.DecisionTable(f.gate, user);
  }

  /** After the end of a promotion every run only gives admissions back. */
  lemma {:induction false} FinishedAdmitsNobody(s: State, es: seq<Event>)
    requires CanRun(s, es) && s.gate.state == G.Finished
    ensures Run(s, es).gate.users <= s.gate.users && Run(s, es).gate.state == G.Finished
    decreases |es|
  {
    hide Do, Enabled;
    if es != [] {
      AdmitsOnlyWhileRunning(s, es[0]);
      FinishedAdmitsNobody(Do(s, es[0]), es[1..]);
    }
  }

  // ----- Retries end -----

  /** An upper bound on the steps a worker still has to make. */
  function StepsLeft(s: State, w: Worker): nat {
    match w.stage
    case Quitting => 1
    case Undoing => 2
    case Burying => 3
    case Trying(attempt, stored) =>
      (if attempt <= s.maxAttempts then 2 * (s.maxAttempts - attempt) else 0) + if stored then 4 else 5
  }

  /** Whatever fails, a worker that has popped a message processes or compensates it within 2 * max_attempts + 3 steps. */
  lemma WorkerStepsDown(s: State, e: Event)
    requires s.maxAttempts > 0 && Enabled(s, e) && (e.StoreOrder? || e.Settle? || e.Bury? || e.UndoStock? || e.UndoToken?)
    ensures var s' := Do(s, e);
            || |s'.workers| == |s.workers| - 1
            || (|s'.workers| == |s.workers|
                && StepsLeft(s', s'.workers[e.i]) < StepsLeft(s, s.workers[e.i])
                && forall j :: 0 <= j < |s.workers| && j != e.i ==> s'.workers[j] == s.workers[j])
    ensures StepsLeft(s, Worker(s.workers[e.i].message, Trying(1, false))) == 2 * s.maxAttempts + 3
  {
    hide Confirmation, Give;
  }

  // ----- Order ids of different promotions -----

  /** `p` + "-" + `u` and `q` + "-" + `v` are one text and `q` is longer than `p`. */
  ghost predicate Shifted(p: string, u: string, q: string, v: string) {
    exists x :: q == p + "-" + x && u == x + "-" + v
  }

  /** Order ids of different promotions collide exactly when one id absorbs a dash and part of the user. */
  lemma OrderIdsCollideIff(p: string, u: string, q: string, v: string)
    ensures OrderId(p, u) == OrderId(q, v) <==> (p == q && u == v) || Shifted(p, u, q, v) || Shifted(q, v, p, u)
  {
    var a, b := OrderId(p, u), OrderId(q, v);
    var prefix := "flash-order-";
    assert a == prefix + (p + "-" + u) && b == prefix + (q + "-" + v);
    assert a[|prefix|..] == p + "-" + u && b[|prefix|..] == q + "-" + v;
    if a == b {
      if |p| <= |q| { SameJoin(p, u, q, v); } else { SameJoin(q, v, p, u); }
    }
    if Shifted(p, u, q, v) { ShiftedJoin(p, u, q, v); }
    if Shifted(q, v, p, u) { ShiftedJoin(q, v, p, u); }
  }

  lemma SameJoin(p: string, u: string, q: string, v: string)
    requires p + "-" + u == q + "-" + v && |p| <= |q|
    ensures (p == q && u == v) || Shifted(p, u, q, v)
  {
    var s := p + "-" + u;
    assert s[..|p|] == p && s[|p|] == '-' && s[|p| + 1..] == u;
    var t := q + "-" + v;
    assert t[..|q|] == q && t[|q|] == '-' && t[|q| + 1..] == v;
    if |p| < |q| {
      var x := s[|p| + 1..|q|];
      assert q == p + "-" + x;
      assert u == x + "-" + v;
    }
  }

  lemma ShiftedJoin(p: string, u: string, q: string, v: string)
    requires Shifted(p, u, q, v)
    ensures p + "-" + u == q + "-" + v
  {
    var x :| q == p + "-" + x && u == x + "-" + v;
  }
}
