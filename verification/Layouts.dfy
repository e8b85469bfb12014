/** The bytes of every file and message format, written out. The codecs' round trips hold for any order of fields; these fix it. */
module Layouts {
  import opened Bytes
  import opened Common
  import opened Text
  import opened Wal
  import Crc32
  import Snapshot
  import KvTable
  import OutboxCodec
  import OrderMessage
  import Inventory
  import InventoryCodec
  import OrderService

  /** Four bytes, the least significant first. */
  function Four(n: nat): seq<byte> {
    [(n % 256) as byte, (n / 256 % 256) as byte, (n / 0x1_0000 % 256) as byte, (n / 0x100_0000 % 256) as byte]
  }

  function Eight(n: nat): seq<byte> {
    Four(n) + Four(n / 0x1_0000_0000)
  }

  /** A number of four bytes, the most significant first. */
  function Reversed(n: nat): seq<byte> {
    [Four(n)[3], Four(n)[2], Four(n)[1], Four(n)[0]]
  }

  lemma Shifted(n: nat)
    ensures n / 256 / 256 == n / 0x1_0000 && n / 256 / 256 / 256 == n / 0x100_0000
  {}

  lemma FourIs(n: nat)
    ensures U32(n) == Four(n)
  {
    Shifted(n);
    var a, b, c := n / 256, n / 256 / 256, n / 256 / 256 / 256;
    assert LittleEndian(c / 256, 0) == [];
    assert LittleEndian(c, 1) == [(c % 256) as byte];
    assert LittleEndian(b, 2) == [(b % 256) as byte, (c % 256) as byte];
    assert LittleEndian(a, 3) == [(a % 256) as byte, (b % 256) as byte, (c % 256) as byte];
  }

  lemma EightIs(n: nat)
    ensures U64(n) == Eight(n)
  {
    Shifted(n);
    var a, b, c, d := n / 256, n / 256 / 256, n / 256 / 256 / 256, n / 0x1_0000_0000;
    assert c / 256 == d;
    FourIs(d);
    assert LittleEndian(c, 5) == [(c % 256) as byte] + U32(d);
    assert LittleEndian(b, 6) == [(b % 256) as byte, (c % 256) as byte] + U32(d);
    assert LittleEndian(a, 7) == [(a % 256) as byte, (b % 256) as byte, (c % 256) as byte] + U32(d);
  }

  /** `BigEndian` on four bytes. */
  lemma ReversedIs(n: nat)
    ensures OrderMessage.BigEndian(n, 4) == Reversed(n)
  {
    Shifted(n);
    var a, b, c := n / 256, n / 256 / 256, n / 256 / 256 / 256;
    assert OrderMessage.BigEndian(c / 256, 0) == [];
    assert OrderMessage.BigEndian(c, 1) == [(c % 256) as byte];
    assert OrderMessage.BigEndian(b, 2) == [(c % 256) as byte, (b % 256) as byte];
    assert OrderMessage.BigEndian(a, 3) == [(c % 256) as byte, (b % 256) as byte, (a % 256) as byte];
  }

  // ----- Files -----

  function Prefixed(field: seq<byte>): seq<byte> {
    Four(|field|) + field
  }

  function Covered(operation: byte, key: seq<byte>, value: seq<byte>): seq<byte> {
    [1, operation, 0] + Four(|key|) + Four(|value|) + key + value
  }

  /** A set, delete or batch in the log: magic, version, operation 1, 2 or 3, flags, both sizes, key, value, checksum. */
  lemma LogRecord(key: seq<byte>, value: seq<byte>, operation: byte)
    requires operation == SET || operation == DELETE || operation == BATCH
    ensures operation == (if operation == SET then 1 else if operation == DELETE then 2 else 3)
    ensures Encode(Crc32.Of, WalRecord(operation, key, value))
            == [0x32, 0x4b, 0x56, 0x4c] + Covered(operation, key, value) + Four(Crc32.Of(Covered(operation, key, value)))
  {
    hide LittleEndian, Crc32.Of;
    MagicBytes();
    hide Four;
    FourIs(|key|);
    FourIs(|value|);
    FourIs(MAGIC);
    assert Body(WalRecord(operation, key, value)) == Covered(operation, key, value);
    FourIs(Crc32.Of(Covered(operation, key, value)));
  }

  lemma MagicBytes()
    ensures Four(MAGIC) == [0x32, 0x4b, 0x56, 0x4c]
    ensures Four(Snapshot.SNAPSHOT_MAGIC) == [0x32, 0x53, 0x56, 0x4c]
    ensures Four(OutboxCodec.OUTBOX_MAGIC) == [0x32, 0x58, 0x42, 0x4f]
    ensures Reversed(OrderMessage.MAGIC) == [0x46, 0x4f, 0x51, 0x31]
  {}

  function Entries(es: seq<Snapshot.Entry>): seq<byte> {
    if es == [] then [] else Four(|es[0].0|) + Four(|es[0].1|) + es[0].0 + es[0].1 + Entries(es[1..])
  }

  lemma {:induction false} EntriesAre(es: seq<Snapshot.Entry>)
    ensures Snapshot.EncodeEntries(es) == Entries(es)
    decreases |es|
  {
    hide LittleEndian, Four;
    if es != [] {
      FourIs(|es[0].0|);
      FourIs(|es[0].1|);
      EntriesAre(es[1..]);
    }
  }

  /** A snapshot: magic, the number of entries on eight bytes, per entry both sizes, key and value, and the checksum. */
  lemma SnapshotFile(es: seq<Snapshot.Entry>)
    requires Snapshot.AllStorable(es)
    ensures var payload := Eight(|es|) + Entries(es);
            Snapshot.Save(Crc32.Of, es) == Some([0x32, 0x53, 0x56, 0x4c] + payload + Four(Crc32.Of(payload)))
  {
    hide LittleEndian, Crc32.Of, Snapshot.EncodeEntries, Entries;
    MagicBytes();
    hide Four;
    FourIs(Snapshot.SNAPSHOT_MAGIC);
    EightIs(|es|);
    EntriesAre(es);
    FourIs(Crc32.Of(Eight(|es|) + Entries(es)));
  }

  function Mutations(ms: seq<WalRecord>): seq<byte> {
    if ms == [] then [] else [ms[0].operation] + Prefixed(ms[0].key) + Prefixed(ms[0].value) + Mutations(ms[1..])
  }

  /** The value of a batch: the number of mutations, and per mutation its operation, key and value behind their lengths. */
  lemma {:induction false} BatchValue(ms: seq<WalRecord>)
    ensures KvTable.EncodeMutations(ms) == Mutations(ms)
    ensures KvTable.EncodeBatch(ms) == Four(|ms|) + Mutations(ms)
    decreases |ms|
  {
    hide LittleEndian, Four;
    FourIs(|ms|);
    if ms != [] {
      FourIs(|ms[0].key|);
      FourIs(|ms[0].value|);
      BatchValue(ms[1..]);
      assert KvTable.EncodeMutation(ms[0]) == [ms[0].operation] + Prefixed(ms[0].key) + Prefixed(ms[0].value);
    }
  }

  /** An event of the outbox file: magic, size, the four texts behind their lengths, the sequence number, the checksum. */
  lemma OutboxRecord(e: OutboxCodec.Event)
    ensures var payload := Prefixed(e.id) + Prefixed(e.topic) + Prefixed(e.key) + Prefixed(e.payload) + Eight(e.sequence);
            OutboxCodec.Record(Crc32.Of, e)
            == [0x32, 0x58, 0x42, 0x4f] + Four(|payload|) + payload + Four(Crc32.Of(payload))
  {
    hide LittleEndian, Crc32.Of;
    MagicBytes();
    hide Four, Eight;
    var payload := Prefixed(e.id) + Prefixed(e.topic) + Prefixed(e.key) + Prefixed(e.payload) + Eight(e.sequence);
    FourIs(OutboxCodec.OUTBOX_MAGIC);
    EightIs(e.sequence);
    OutboxFields([e.id, e.topic, e.key, e.payload]);
    assert OutboxCodec.EncodeEvent(e) == payload;
    FourIs(|payload|);
    FourIs(Crc32.Of(payload));
  }

  lemma OutboxFields(f: seq<seq<byte>>)
    requires |f| == 4
    ensures OutboxCodec.EncodeFields(f) == Prefixed(f[0]) + Prefixed(f[1]) + Prefixed(f[2]) + Prefixed(f[3])
  {
    hide LittleEndian, Four;
    FourIs(|f[0]|);
    FourIs(|f[1]|);
    FourIs(|f[2]|);
    FourIs(|f[3]|);
    assert OutboxCodec.EncodeFields(f[1..][1..][1..][1..]) == [];
    assert OutboxCodec.EncodeFields(f[1..][1..][1..]) == Prefixed(f[3]);
    assert OutboxCodec.EncodeFields(f[1..][1..]) == Prefixed(f[2]) + Prefixed(f[3]);
    assert OutboxCodec.EncodeFields(f[1..]) == Prefixed(f[1]) + (Prefixed(f[2]) + Prefixed(f[3]));
  }

  // ----- The queue message -----

  function Counted(field: seq<byte>): seq<byte> {
    Reversed(|field|) + field
  }

  /** The order message: "FOQ1", version 1 on two bytes, five texts behind their lengths, the quantity. */
  lemma OrderPayload(m: OrderMessage.Message)
    requires OrderMessage.Acceptable(m) && OrderMessage.Small(OrderMessage.Fields(m)) && m.quantity < U32_LIMIT
    ensures OrderMessage.Serialize(m)
            == [0x46, 0x4f, 0x51, 0x31, 0, 1] + Counted(m.promotion) + Counted(m.order) + Counted(m.key)
               + Counted(m.user) + Counted(m.sku) + Reversed(m.quantity)
  {
    hide OrderMessage.EncodeFields;
    MagicBytes();
    VersionBytes();
    hide Four, Reversed, OrderMessage.BigEndian;
    ReversedIs(OrderMessage.MAGIC);
    ReversedIs(m.quantity);
    MessageFields([m.promotion, m.order, m.key, m.user, m.sku]);
  }

  lemma VersionBytes()
    ensures OrderMessage.BigEndian(1, 2) == [0, 1]
  {
    assert OrderMessage.BigEndian(0, 1) == [0];
  }

  lemma MessageField(f: seq<byte>)
    requires |f| <= OrderMessage.FIELD_LIMIT
    ensures OrderMessage.EncodeField(f) == Counted(f)
  {
    hide OrderMessage.BigEndian, Reversed;
    assert |f| % U32_LIMIT == |f|;
    ReversedIs(|f|);
  }

  lemma MessageFields(f: seq<seq<byte>>)
    requires |f| == 5 && OrderMessage.Small(f)
    ensures OrderMessage.EncodeFields(f) == Counted(f[0]) + Counted(f[1]) + Counted(f[2]) + Counted(f[3]) + Counted(f[4])
  {
    hide OrderMessage.EncodeField, Counted;
    MessageField(f[0]);
    MessageField(f[1]);
    MessageField(f[2]);
    MessageField(f[3]);
    MessageField(f[4]);
    assert OrderMessage.EncodeFields(f[1..][1..][1..][1..][1..]) == [];
    assert OrderMessage.EncodeFields(f[1..][1..][1..][1..]) == Counted(f[4]);
    assert OrderMessage.EncodeFields(f[1..][1..][1..]) == Counted(f[3]) + Counted(f[4]);
    assert OrderMessage.EncodeFields(f[1..][1..]) == Counted(f[2]) + (Counted(f[3]) + Counted(f[4]));
    assert OrderMessage.EncodeFields(f[1..]) == Counted(f[1]) + (Counted(f[2]) + (Counted(f[3]) + Counted(f[4])));
  }

  // ----- Text records -----

  lemma OneDigit(d: nat)
    requires d < 10
    ensures |ToText(d)| == 1 && ToText(d)[0] as int == '0' as int + d
  {}

  /** A stock row under its key: available, reserved, sold. */
  lemma StockRecord(sku: string, s: Inventory.Stock)
    ensures InventoryCodec.StockKey(sku) == "inventory/stock/" + sku
    ensures InventoryCodec.EncodeStock(s) == ToText(s.available) + "|" + ToText(s.reserved) + "|" + ToText(s.sold)
  {
    hide ToText;
    assert ToText(s.available) + "|" + (ToText(s.reserved) + "|" + ToText(s.sold))
           == ToText(s.available) + "|" + ToText(s.reserved) + "|" + ToText(s.sold);
  }

  /** A reservation under its key: SKU, quantity, and 0, 1 or 2 for reserved, confirmed or released. */
  lemma ReservationRecord(op: string, r: Inventory.Reservation)
    ensures InventoryCodec.ReservationKey(op) == "inventory/reservation/" + op
    ensures InventoryCodec.EncodeReservation(r)
            == r.sku + "|" + ToText(r.quantity) + "|"
               + match r.state case Reserved => "0" case Confirmed => "1" case Released => "2"
  {
    OneDigit(0);
    OneDigit(1);
    OneDigit(2);
    hide ToText;
    var state := ToText(InventoryCodec.StateNumber(r.state));
    assert state == match r.state case Reserved => "0" case Confirmed => "1" case Released => "2";
    assert r.sku + "|" + (ToText(r.quantity) + "|" + state) == r.sku + "|" + ToText(r.quantity) + "|" + state;
  }

  /** An order: id, idempotency key, user, SKU, quantity and the state, which is 0. */
  lemma OrderRecord(o: OrderService.Order)
    ensures OrderService.Serialize(o)
            == o.id + "\t" + o.key + "\t" + o.user + "\t" + o.sku + "\t" + ToText(o.quantity) + "\t" + "0"
  {
    OneDigit(0);
    hide ToText;
    var quantity := ToText(o.quantity);
    assert ToText(0) == "0";
    assert o.id + "\t" + (o.key + "\t" + (o.user + "\t" + (o.sku + "\t" + (quantity + ("\t" + "0")))))
           == o.id + "\t" + o.key + "\t" + o.user + "\t" + o.sku + "\t" + quantity + "\t" + "0";
  }
}
