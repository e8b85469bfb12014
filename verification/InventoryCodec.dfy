/** How stock and reservations are kept in storage, as text under prefixed keys. */
module InventoryCodec {
  import opened Common
  import opened Text
  import opened Inventory

  type Store = map<string, string>

  const STOCK_PREFIX := "inventory/stock/"
  const RESERVATION_PREFIX := "inventory/reservation/"

  function StockKey(sku: Sku): string {
    STOCK_PREFIX + sku
  }

  function ReservationKey(op: Op): string {
    RESERVATION_PREFIX + op
  }

  // ----- Text -----

  function EncodeStock(s: Stock): string {
    ToText(s.available) + "|" + (ToText(s.reserved) + "|" + ToText(s.sold))
  }

  /** A number and the separator behind it. */
  function ReadField(s: string): Option<(int, string)> {
    match ReadInt(s)
    case None => None
    case Some((value, rest)) =>
      match ReadChar(rest)
      case None => None
      case Some((c, rest')) => if c == '|' then Some((value, rest')) else None
  }

  function DecodeStock(s: string): Option<Stock> {
    match ReadField(s)
    case None => None
    case Some((available, s1)) =>
      match ReadField(s1)
      case None => None
      case Some((reserved, s2)) =>
        match ReadInt(s2)
        case None => None
        case Some((sold, _)) => Some(Stock(available, reserved, sold))
  }

  function StateNumber(st: ReservationState): int {
    match st
    case Reserved => 0
    case Confirmed => 1
    case Released => 2
  }

  function EncodeReservation(r: Reservation): string {
    r.sku + "|" + (ToText(r.quantity) + "|" + ToText(StateNumber(r.state)))
  }

  function DecodeReservation(s: string): Option<Reservation> {
    match GetLine(s, '|')
    case None => None
    case Some((sku, s1)) =>
      match ReadField(s1)
      case None => None
      case Some((quantity, s2)) =>
        match ReadInt(s2)
        case None => None
        case Some((state, _)) =>
          if state == 0 then Some(Reservation(sku, quantity, Reserved))
          else if state == 1 then Some(Reservation(sku, quantity, Confirmed))
          else if state == 2 then Some(Reservation(sku, quantity, Released))
          else None
  }

  predicate IsInt64(n: int) {
    INT64_MIN <= n <= INT64_MAX
  }

  lemma ReadFieldOf(n: int, rest: string)
    requires IsInt64(n)
    ensures ReadField(ToText(n) + "|" + rest) == Some((n, rest))
  {
    hide ToText, ReadInt;
    assert ToText(n) + "|" + rest == ToText(n) + ("|" + rest);
    ReadIntOf(n, "|" + rest);
    assert ("|" + rest)[1..] == rest;
  }

  lemma DecodeStockInverts(s: Stock)
    requires IsInt64(s.available) && IsInt64(s.reserved) && IsInt64(s.sold)
    ensures DecodeStock(EncodeStock(s)) == Some(s)
  {
    hide ToText, ReadInt, ReadField;
    ReadFieldOf(s.available, ToText(s.reserved) + "|" + ToText(s.sold));
    ReadFieldOf(s.reserved, ToText(s.sold));
    assert ToText(s.sold) + "" == ToText(s.sold);
    ReadIntOf(s.sold, "");
  }

  /** A reservation reads back as it was written if and only if its SKU does not contain the separator. */
  lemma DecodeReservationInvertsIff(r: Reservation)
    requires IsInt64(r.quantity)
    ensures DecodeReservation(EncodeReservation(r)) == Some(r) <==> '|' !in r.sku
  {
    hide ToText, ReadInt, ReadField, Before;
    var tail := ToText(r.quantity) + "|" + ToText(StateNumber(r.state));
    if '|' in r.sku {
      BeforeHasNoDelimiter(EncodeReservation(r), '|');
    } else {
      GetLineOf(r.sku, '|', tail);
      ReadFieldOf(r.quantity, ToText(StateNumber(r.state)));
      assert ToText(StateNumber(r.state)) + "" == ToText(StateNumber(r.state));
      ReadIntOf(StateNumber(r.state), "");
    }
  }

  // ----- Keys -----

  predicate HasPrefix(key: string, prefix: string) {
    |key| >= |prefix| && key[..|prefix|] == prefix
  }

  lemma KeysApart(sku: Sku, op: Op)
    ensures HasPrefix(StockKey(sku), STOCK_PREFIX) && !HasPrefix(StockKey(sku), RESERVATION_PREFIX)
    ensures HasPrefix(ReservationKey(op), RESERVATION_PREFIX) && !HasPrefix(ReservationKey(op), STOCK_PREFIX)
    ensures StockKey(sku)[|STOCK_PREFIX|..] == sku
    ensures ReservationKey(op)[|RESERVATION_PREFIX|..] == op
  {
    assert STOCK_PREFIX[10] == 's' && RESERVATION_PREFIX[10] == 'r';
    assert StockKey(sku)[10] == 's' && ReservationKey(op)[10] == 'r';
    assert StockKey(sku)[..|STOCK_PREFIX|] == STOCK_PREFIX;
    assert ReservationKey(op)[..|RESERVATION_PREFIX|] == RESERVATION_PREFIX;
    PrefixDecides(StockKey(sku), RESERVATION_PREFIX, 10);
    PrefixDecides(ReservationKey(op), STOCK_PREFIX, 10);
  }

  lemma PrefixDecides(key: string, prefix: string, i: nat)
    requires i < |key| && i < |prefix|
    ensures HasPrefix(key, prefix) ==> key[i] == prefix[i]
  {
    if HasPrefix(key, prefix) { assert key[i] == key[..|prefix|][i]; }
  }

  predicate HoldsStock(store: Store, l: Ledger, sku: Sku) {
    if sku in l.stocks then StockKey(sku) in store && store[StockKey(sku)] == EncodeStock(l.stocks[sku])
    else StockKey(sku) !in store
  }

  predicate HoldsReservation(store: Store, l: Ledger, op: Op) {
    if op in l.reservations
    then ReservationKey(op) in store && store[ReservationKey(op)] == EncodeReservation(l.reservations[op])
    else ReservationKey(op) !in store
  }

  /** The store holds exactly this ledger under the inventory keys; other keys are free. */
  ghost predicate Holds(store: Store, l: Ledger) {
    (forall sku :: HoldsStock(store, l, sku)) && (forall op :: HoldsReservation(store, l, op))
  }
}
