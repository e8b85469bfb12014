/** The Redis inventory: Lua scripts over two hashes of one SKU, in lock-step with the local ledger. */
module RedisInventory {
  import opened Common
  import opened Inventory
  import opened Text

  /** Below this a Lua number prints as its decimal digits. */
  const LUA_EXACT: int := 100_000_000_000_000

  /** The stock hash; `total` is only ever compared as text. */
  datatype Hash = Hash(total: string, available: int, reserved: int, sold: int)

  datatype Redis = Redis(stock: Option<Hash>, operations: map<Op, string>)

  function Name(st: ReservationState): string {
    match st
    case Reserved => "reserved"
    case Confirmed => "confirmed"
    case Released => "released"
  }

  function Record(quantity: int, st: ReservationState): string {
    ToText(quantity) + "|" + Name(st)
  }

  /** `tonumber`. */
  function Number(text: string): int {
    match ReadInt(text)
    case None => 0
    case Some((n, _)) => n
  }

  // ----- The scripts -----

  function Initialize(r: Redis, quantity: int): (int, Redis) {
    match r.stock
    case Some(h) => (if h.total != ToText(quantity) then 0 else 2, r)
    case None => (1, r.(stock := Some(Hash(ToText(quantity), quantity, 0, 0))))
  }

  function ReserveScript(r: Redis, quantity: int, op: Op): (int, Redis) {
    if op in r.operations then (if r.operations[op] == ToText(quantity) + "|reserved" then 2 else -2, r)
    else
      match r.stock
      case None => (0, r)
      case Some(h) =>
        if h.available < quantity then (0, r)
        else
          (1, Redis(Some(h.(available := h.available - quantity, reserved := h.reserved + quantity)),
                    r.operations[op := ToText(quantity) + "|reserved"]))
  }

  /** How far a script moves each counter, per unit of quantity. */
  datatype Shift = Shift(available: int, reserved: int, sold: int)

  /**
   The shape shared by the other four scripts: `already` answers 1 at once, `from` moves to `to`, and any other
   state is a conflict.
   */
  function Transition(r: Redis, op: Op, already: string, from: string, to: string, shift: Shift): (int, Redis) {
    if op !in r.operations then (-1, r)
    else
      var (digits, state) := Before(r.operations[op], '|');
      var q := Number(digits);
      if state == already then (1, r)
      else if state != from then (-2, r)
      else
        var stock := match r.stock
          case None => Hash("", shift.available * q, shift.reserved * q, shift.sold * q)
          case Some(h) => h.(available := h.available + shift.available * q, reserved := h.reserved + shift.reserved * q,
                             sold := h.sold + shift.sold * q);
        (1, Redis(Some(stock), r.operations[op := ToText(q) + "|" + to]))
  }

  function Script(r: Redis, call: Call): (int, Redis) {
    match call
    case AddSku(_, quantity) => Initialize(r, quantity)
    case Reserve(_, quantity, op) => ReserveScript(r, quantity, op)
    case Confirm(op) => Transition(r, op, "confirmed", "reserved", "confirmed", Shift(0, -1, 1))
    case Release(op) => Transition(r, op, "released", "reserved", "released", Shift(1, -1, 0))
    case RollbackConfirmation(op) => Transition(r, op, "", "confirmed", "reserved", Shift(0, 1, -1))
    case RollbackRelease(op) => Transition(r, op, "", "released", "reserved", Shift(-1, 1, 0))
  }

  /** The whole call: arguments are checked before the script is sent. Code -1 also stands for a refused argument. */
  function Remote(r: Redis, call: Call): (int, Redis) {
    if !GoodArguments(call) || (!call.AddSku? && call.op == "") then (-1, r) else Script(r, call)
  }

  // ----- The local service -----

  function Local(l: Ledger, call: Call, sku: Sku): (Status, Ledger) {
    if !GoodArguments(call) then (InvalidArgument, l)
    else if !call.AddSku? && !call.Reserve? && call.op !in l.reservations then (NotFound, l)
    else
      match Attempt(l, call, sku)
      case Answer(status) => (status, l)
      case Changed(c) => (Ok, Land(l, c))
  }

  // ----- Lock-step -----

  /** The calls of one SKU, with a quantity that Lua prints exactly. */
  predicate OnSku(call: Call, sku: Sku) {
    match call
    case AddSku(s, quantity) => s == sku && quantity < LUA_EXACT
    case Reserve(s, quantity, _) => s == sku && quantity < LUA_EXACT
    case _ => true
  }

  predicate SameStock(stock: Option<Hash>, l: Ledger, sku: Sku) {
    match stock
    case None => sku !in l.stocks && l.reservations == map[]
    case Some(h) =>
      && sku in l.stocks && Stock(h.available, h.reserved, h.sold) == l.stocks[sku]
      && h.total == ToText(l.stocks[sku].Sum()) && 0 < l.stocks[sku].Sum() < LUA_EXACT
  }

  predicate SameOperation(r: Redis, l: Ledger, sku: Sku, op: Op) {
    && (op in r.operations <==> op in l.reservations)
    && (op in l.reservations ==>
          && op != "" && l.reservations[op].sku == sku && 0 < l.reservations[op].quantity < LUA_EXACT
          && op in r.operations && r.operations[op] == Record(l.reservations[op].quantity, l.reservations[op].state))
  }

  /** Equal counters, and the same record for every operation. */
  ghost predicate Same(r: Redis, l: Ledger, sku: Sku) {
    SameStock(r.stock, l, sku) && forall op :: SameOperation(r, l, sku, op)
  }

  lemma RecordReads(q: int, st: ReservationState)
    requires 0 < q < LUA_EXACT
    ensures Before(Record(q, st), '|') == (ToText(q), Name(st)) && Number(ToText(q)) == q
  {
    hide Before, ReadDigits, Digits;
    DigitsHaveNoBar(q);
    assert Record(q, st) == ToText(q) + ['|'] + Name(st);
    BeforeOf(ToText(q), '|', Name(st));
    ReadIntOf(q, "");
    assert ToText(q) + "" == ToText(q);
  }

  lemma DigitsHaveNoBar(q: int)
    requires q >= 0
    ensures '|' !in ToText(q)
  {
    hide Digits;
  }

  lemma RecordsDiffer(a: int, b: int, st: ReservationState, su: ReservationState)
    requires 0 < a < LUA_EXACT && 0 < b < LUA_EXACT
    ensures Record(a, st) == Record(b, su) <==> a == b && st == su
  {
    hide Record, Before;
    RecordReads(a, st);
    RecordReads(b, su);
  }

  /** Only the operation and the counters of the call change. */
  lemma Lands(r: Redis, l: Ledger, sku: Sku, op: Op, h: Hash, q: int, st: ReservationState)
    requires Same(r, l, sku) && sku in l.stocks && op != "" && 0 < q < LUA_EXACT
    requires SameStock(Some(h), l.(stocks := l.stocks[sku := Stock(h.available, h.reserved, h.sold)]), sku)
    ensures Same(Redis(Some(h), r.operations[op := Record(q, st)]),
                 Ledger(l.stocks[sku := Stock(h.available, h.reserved, h.sold)], l.reservations[op := Reservation(sku, q, st)]), sku)
  {
    hide Record;
    var r' := Redis(Some(h), r.operations[op := Record(q, st)]);
    var l' := Ledger(l.stocks[sku := Stock(h.available, h.reserved, h.sold)], l.reservations[op := Reservation(sku, q, st)]);
    forall o ensures SameOperation(r', l', sku, o) { assert SameOperation(r, l, sku, o); }
  }

  lemma ReserveSame(r: Redis, l: Ledger, sku: Sku, quantity: int, op: Op)
    requires Same(r, l, sku) && sku != "" && op != "" && 0 < quantity < LUA_EXACT
    ensures var (code, r') := ReserveScript(r, quantity, op);
            var (status, l') := Local(l, Reserve(sku, quantity, op), sku);
            && Same(r', l', sku)
            && (InClosedState(l, op) ==> code == -2 && (status == Ok <==> l.reservations[op].quantity == quantity))
            && (!InClosedState(l, op) ==> (status == Ok <==> code == 1 || code == 2))
  {
    hide ToText, Record;
    assert SameOperation(r, l, sku, op);
    assert Record(quantity, Reserved) == ToText(quantity) + "|reserved" by { Spelled(quantity, Reserved); }
    if op in l.reservations {
      RecordsDiffer(quantity, l.reservations[op].quantity, Reserved, l.reservations[op].state);
    } else if sku in l.stocks && l.stocks[sku].available >= quantity {
      var h := r.stock.value;
      Lands(r, l, sku, op, h.(available := h.available - quantity, reserved := h.reserved + quantity), quantity, Reserved);
    }
  }

  lemma Spelled(q: int, st: ReservationState)
    ensures Record(q, st) == ToText(q) + "|" + Name(st)
    ensures ToText(q) + "|reserved" == ToText(q) + "|" + Name(Reserved)
  {
    assert "|reserved" == "|" + "reserved";
    assert ToText(q) + "|" + "reserved" == ToText(q) + ("|" + "reserved");
  }

  /** The operation exists and is no longer reserved. */
  predicate InClosedState(l: Ledger, op: Op) {
    op in l.reservations && l.reservations[op].state != Reserved
  }

  /** What the four scripts and the four local calls agree on. */
  predicate Moves(call: Call, from: ReservationState, to: ReservationState, already: string, shift: Shift) {
    match call
    case Confirm(_) => from == Reserved && to == Confirmed && already == "confirmed" && shift == Shift(0, -1, 1)
    case Release(_) => from == Reserved && to == Released && already == "released" && shift == Shift(1, -1, 0)
    case RollbackConfirmation(_) => from == Confirmed && to == Reserved && already == "" && shift == Shift(0, 1, -1)
    case RollbackRelease(_) => from == Released && to == Reserved && already == "" && shift == Shift(-1, 1, 0)
    case _ => false
  }

  lemma OperationSame(r: Redis, l: Ledger, sku: Sku, op: Op)
    requires Same(r, l, sku)
    ensures SameOperation(r, l, sku, op) && SameStock(r.stock, l, sku)
  {}

  lemma TransitionSame(r: Redis, l: Ledger, sku: Sku, call: Call, from: ReservationState, to: ReservationState,
                       already: string, shift: Shift)
    requires Same(r, l, sku) && Moves(call, from, to, already, shift) && call.op != ""
    ensures var (code, r') := Transition(r, call.op, already, Name(from), Name(to), shift);
            var (status, l') := Local(l, call, sku);
            Same(r', l', sku) && (code == 1 <==> status == Ok) && (code == -1 <==> status == NotFound)
  {
    hide Record, Before, Number, ToText, Same;
    OperationSame(r, l, sku, call.op);
    if call.op in l.reservations {
      var v, h := l.reservations[call.op], r.stock.value;
      RecordReads(v.quantity, v.state);
      if v.state == from {
        var q := v.quantity;
        Spelled(q, to);
        Lands(r, l, sku, call.op,
              h.(available := h.available + shift.available * q, reserved := h.reserved + shift.reserved * q,
                 sold := h.sold + shift.sold * q), q, to);
      }
    }
  }

  /**
   One call keeps both machines the same. The answers agree except in two cases a caller can look up: a
   reserve whose operation exists with the same quantity and is no longer reserved, which only the local service
   accepts, and a second initialization with the same total, which only Redis accepts.
   */
  lemma CallSame(r: Redis, l: Ledger, sku: Sku, call: Call)
    requires Same(r, l, sku) && OnSku(call, sku)
    ensures Same(Remote(r, call).1, Local(l, call, sku).1, sku)
    ensures (Remote(r, call).0 in {1, 2} <==> Local(l, call, sku).0 == Ok)
            <==> !(call.Reserve? && GoodArguments(call) && InClosedState(l, call.op) && l.reservations[call.op].quantity == call.quantity)
                 && !(call.AddSku? && GoodArguments(call) && sku in l.stocks && l.stocks[sku].Sum() == call.quantity)
  {
    hide Transition, Record, ToText, Same;
    match call
    case AddSku(_, quantity) => if GoodArguments(call) { InitializeSame(r, l, sku, quantity); }
    case Reserve(_, quantity, op) => if GoodArguments(call) { ReserveSame(r, l, sku, quantity, op); }
    case Confirm(op) => MoveSame(r, l, sku, call, Reserved, Confirmed, "confirmed", Shift(0, -1, 1));
    case Release(op) => MoveSame(r, l, sku, call, Reserved, Released, "released", Shift(1, -1, 0));
    case RollbackConfirmation(op) => MoveSame(r, l, sku, call, Confirmed, Reserved, "", Shift(0, 1, -1));
    case RollbackRelease(op) => MoveSame(r, l, sku, call, Released, Reserved, "", Shift(-1, 1, 0));
  }

  lemma MoveSame(r: Redis, l: Ledger, sku: Sku, call: Call, from: ReservationState, to: ReservationState,
                 already: string, shift: Shift)
    requires Same(r, l, sku) && Moves(call, from, to, already, shift)
    requires Script(r, call) == Transition(r, call.op, already, Name(from), Name(to), shift)
    ensures Same(Remote(r, call).1, Local(l, call, sku).1, sku)
    ensures Remote(r, call).0 in {1, 2} <==> Local(l, call, sku).0 == Ok
  {
    if call.op == "" {
      assert SameOperation(r, l, sku, call.op);
    } else {
      TransitionSame(r, l, sku, call, from, to, already, shift);
      TransitionCodes(r, call.op, already, Name(from), Name(to), shift);
    }
  }

  lemma TransitionCodes(r: Redis, op: Op, already: string, from: string, to: string, shift: Shift)
    ensures Transition(r, op, already, from, to, shift).0 in {-2, -1, 1}
  {}

  lemma InitializeSame(r: Redis, l: Ledger, sku: Sku, quantity: int)
    requires Same(r, l, sku) && sku != "" && 0 < quantity < LUA_EXACT
    ensures var (code, r') := Initialize(r, quantity);
            var (status, l') := Local(l, AddSku(sku, quantity), sku);
            && Same(r', l', sku)
            && ((code == 1) <==> status == Ok) && (code == 2 <==> sku in l.stocks && l.stocks[sku].Sum() == quantity)
  {
    if r.stock.Some? {
      SameTexts(quantity, l.stocks[sku].Sum());
    } else {
      var r', l' := Initialize(r, quantity).1, Local(l, AddSku(sku, quantity), sku).1;
      forall op ensures SameOperation(r', l', sku, op) { assert SameOperation(r, l, sku, op); }
    }
  }

  lemma SameTexts(a: nat, b: nat)
    ensures ToText(a) == ToText(b) <==> a == b
  {
    if ToText(a) == ToText(b) { DigitsInjective(a, b); }
  }

  // ----- Runs -----

  function RemoteAll(r: Redis, calls: seq<Call>): Redis
    decreases |calls|
  {
    if calls == [] then r else RemoteAll(Remote(r, calls[0]).1, calls[1..])
  }

  function LocalAll(l: Ledger, calls: seq<Call>, sku: Sku): Ledger
    decreases |calls|
  {
    if calls == [] then l else LocalAll(Local(l, calls[0], sku).1, calls[1..], sku)
  }

  lemma {:induction false} CallsSame(r: Redis, l: Ledger, sku: Sku, calls: seq<Call>)
    requires Same(r, l, sku) && forall i :: 0 <= i < |calls| ==> OnSku(calls[i], sku)
    ensures Same(RemoteAll(r, calls), LocalAll(l, calls, sku), sku)
    decreases |calls|
  {
    hide Same, Remote, Local, OnSku;
    if calls != [] {
      CallSame(r, l, sku, calls[0]);
      CallsSame(Remote(r, calls[0]).1, Local(l, calls[0], sku).1, sku, calls[1..]);
    }
  }

  /**
   After any common sequence of calls on one SKU, rollbacks of releases included, the Redis hashes and the local ledger
   hold equal counters and the same quantity and state for every operation.
   */
  lemma Lockstep(sku: Sku, calls: seq<Call>)
    requires forall i :: 0 <= i < |calls| ==> OnSku(calls[i], sku)
    ensures var r, l := RemoteAll(Redis(None, map[]), calls), LocalAll(Ledger(map[], map[]), calls, sku);
            && (r.stock.None? <==> sku !in l.stocks)
            && (r.stock.Some? ==> Stock(r.stock.value.available, r.stock.value.reserved, r.stock.value.sold) == l.stocks[sku])
            && r.operations.Keys == l.reservations.Keys
            && (forall op :: op in l.reservations ==>
                  r.operations[op] == Record(l.reservations[op].quantity, l.reservations[op].state))
  {
    hide RemoteAll, LocalAll, Record;
    var r0, l0 := Redis(None, map[]), Ledger(map[], map[]);
    assert forall op :: SameOperation(r0, l0, sku, op);
    CallsSame(r0, l0, sku, calls);
    var r, l := RemoteAll(r0, calls), LocalAll(l0, calls, sku);
    forall op
      ensures op in r.operations <==> op in l.reservations
      ensures op in l.reservations ==> r.operations[op] == Record(l.reservations[op].quantity, l.reservations[op].state)
    {
      assert SameOperation(r, l, sku, op);
    }
  }

  // ----- The scripts as they run on the hashes -----

  class Hashes {
    var stock: Option<Hash>
    var operations: map<Op, string>

    function State(): Redis
      reads this
    {
      Redis(stock, operations)
    }

    constructor ()
      ensures State() == Redis(None, map[])
    {
      stock, operations := None, map[];
    }

    /** HINCRBY on the three counters; a missing hash counts as zeros. */
    method Increase(available: int, reserved: int, sold: int)
      modifies this`stock
      ensures stock == Some(match old(stock)
                            case None => Hash("", available, reserved, sold)
                            case Some(h) => h.(available := h.available + available, reserved := h.reserved + reserved,
                                               sold := h.sold + sold))
    {
      var h := if stock.Some? then stock.value else Hash("", 0, 0, 0);
      stock := Some(h.(available := h.available + available, reserved := h.reserved + reserved, sold := h.sold + sold));
    }

    method EvalInitialize(quantity: int) returns (code: int)
      modifies this
      ensures (code, State()) == Initialize(old(State()), quantity)
      ensures code == if old(stock).None? then 1 else if old(stock).value.total == ToText(quantity) then 2 else 0
      ensures operations == old(operations)
      ensures stock == if code == 1 then Some(Hash(ToText(quantity), quantity, 0, 0)) else old(stock)
    {
      if stock.Some? {
        if stock.value.total != ToText(quantity) { return 0; }
        return 2;
      }
      stock := Some(Hash(ToText(quantity), quantity, 0, 0));
      return 1;
    }

    method EvalReserve(quantity: int, op: Op) returns (code: int)
      requires quantity > 0
      modifies this
      ensures (code, State()) == ReserveScript(old(State()), quantity, op)
      ensures code == if op in old(operations) then (if old(operations)[op] == ToText(quantity) + "|reserved" then 2 else -2)
                      else if old(stock).None? || old(stock).value.available < quantity then 0 else 1
      ensures code != 1 ==> unchanged(this)
      ensures code == 1 ==>
                && stock.Some? && operations == old(operations)[op := ToText(quantity) + "|reserved"]
                && stock.value.available == old(stock).value.available - quantity
                && stock.value.reserved == old(stock).value.reserved + quantity
                && stock.value.sold == old(stock).value.sold && stock.value.total == old(stock).value.total
    {
      if op in operations {
        if operations[op] == ToText(quantity) + "|reserved" { return 2; }
        return -2;
      }
      var available := if stock.Some? then stock.value.available else -1;
      if available < quantity { return 0; }
      Increase(-quantity, quantity, 0);
      operations := operations[op := ToText(quantity) + "|reserved"];
      return 1;
    }

    /** Confirm, release and the two rollbacks, with the states and signs each of them has. */
    method EvalTransition(op: Op, already: string, from: string, to: string, shift: Shift) returns (code: int)
      modifies this
      ensures (code, State()) == Transition(old(State()), op, already, from, to, shift)
      ensures op !in old(operations) <==> code == -1
      ensures op in old(operations) ==>
                var (digits, state) := Before(old(operations)[op], '|');
                var q := Number(digits);
                && code == (if state == already || state == from then 1 else -2)
                && (code != 1 || state == already ==> unchanged(this))
                && (state == from && state != already ==>
                      && operations == old(operations)[op := ToText(q) + "|" + to] && stock.Some?
                      && (old(stock).Some? ==>
                            && stock.value.total == old(stock).value.total
                            && stock.value.available == old(stock).value.available + shift.available * q
                            && stock.value.reserved == old(stock).value.reserved + shift.reserved * q
                            && stock.value.sold == old(stock).value.sold + shift.sold * q))
    {
      if op !in operations { return -1; }
      var (digits, state) := Before(operations[op], '|');
      var quantity := Number(digits);
      if state == already { return 1; }
      if state != from { return -2; }
      Increase(shift.available * quantity, shift.reserved * quantity, shift.sold * quantity);
      operations := operations[op := ToText(quantity) + "|" + to];
      return 1;
    }
  }
}
