/** The queue payload of a flash-sale order: big-endian integers and length-prefixed fields. */
module OrderMessage {
  import opened Bytes
  import opened Common

  const MAGIC: nat := 0x464f5131
  const FIELD_LIMIT: nat := 4096
  const PAYLOAD_LIMIT: nat := 32 * 1024

  datatype Message = Message(
    version: nat, promotion: seq<byte>, order: seq<byte>, key: seq<byte>, user: seq<byte>, sku: seq<byte>, quantity: int)

  predicate Acceptable(m: Message) {
    m.version == 1 && m.promotion != [] && m.order != [] && m.key != [] && m.user != [] && m.sku != [] && m.quantity > 0
  }

  // ----- Big-endian integers -----

  function BigEndian(n: nat, width: nat): (r: seq<byte>)
    ensures |r| == width
  {
    if width == 0 then [] else BigEndian(n / 256, width - 1) + [(n % 256) as byte]
  }

  function FromBigEndian(s: seq<byte>): nat {
    if s == [] then 0 else 256 * FromBigEndian(s[..|s| - 1]) + s[|s| - 1] as nat
  }

  lemma {:induction false} BigEndianRoundTrip(n: nat, width: nat)
    requires n < Radix(width)
    ensures FromBigEndian(BigEndian(n, width)) == n
  {
    if width > 0 {
      BigEndianRoundTrip(n / 256, width - 1);
      assert BigEndian(n, width)[..width - 1] == BigEndian(n / 256, width - 1);
    }
  }

  lemma {:induction false} FromBigEndianRoundTrip(s: seq<byte>)
    ensures FromBigEndian(s) < Radix(|s|)
    ensures BigEndian(FromBigEndian(s), |s|) == s
  {
    if s != [] {
      FromBigEndianRoundTrip(s[..|s| - 1]);
      assert s == s[..|s| - 1] + [s[|s| - 1]];
    }
  }

  /** The bytes of `n` from the most significant one down, as the shifting loop pushes them. */
  method AppendU32(out: seq<byte>, n: nat) returns (r: seq<byte>)
    requires n < U32_LIMIT
    ensures r == out + BigEndian(n, 4)
  {
    var low: seq<byte>, rest, i := [], n, 0;
    while i < 4
      invariant 0 <= i <= 4 && |low| == i
      invariant BigEndian(n, 4) == BigEndian(rest, 4 - i) + low
    {
      assert BigEndian(rest, 4 - i) == BigEndian(rest / 256, 4 - i - 1) + [(rest % 256) as byte];
      low := [(rest % 256) as byte] + low;
      rest := rest / 256;
      i := i + 1;
    }
    assert BigEndian(rest, 0) == [];
    r := out + low;
  }

  method ReadU32(value: seq<byte>, offset: nat) returns (r: Option<nat>)
    ensures r == if offset + 4 > |value| then None else Some(FromBigEndian(value[offset..offset + 4]))
  {
    if offset + 4 > |value| { return None; }
    var n, i := 0, 0;
    while i < 4
      invariant 0 <= i <= 4
      invariant n == FromBigEndian(value[offset..offset + i])
    {
      assert value[offset..offset + i + 1][..i] == value[offset..offset + i];
      n := n * 256 + value[offset + i] as nat;
      i := i + 1;
    }
    r := Some(n);
  }

  // ----- Length-prefixed fields -----

  /** The length prefix is cut to 32 bits. */
  function EncodeField(field: seq<byte>): seq<byte> {
    BigEndian(|field| % U32_LIMIT, 4) + field
  }

  function EncodeFields(fields: seq<seq<byte>>): seq<byte> {
    if fields == [] then [] else EncodeField(fields[0]) + EncodeFields(fields[1..])
  }

  /** The field at the front of `s` and what follows it. */
  function ReadField(s: seq<byte>): Option<(seq<byte>, seq<byte>)> {
    if |s| < 4 then None
    else
      var length := FromBigEndian(s[..4]);
      if length > FIELD_LIMIT || 4 + length > |s| then None else Some((s[4..4 + length], s[4 + length..]))
  }

  function ReadFields(s: seq<byte>, count: nat): Option<(seq<seq<byte>>, seq<byte>)> {
    if count == 0 then Some(([], s))
    else
      match ReadField(s)
      case None => None
      case Some((field, rest)) =>
        match ReadFields(rest, count - 1)
        case None => None
        case Some((fields, tail)) => Some(([field] + fields, tail))
  }

  predicate Small(fields: seq<seq<byte>>) {
    forall i :: 0 <= i < |fields| ==> |fields[i]| <= FIELD_LIMIT
  }

  lemma ReadFieldOf(field: seq<byte>, tail: seq<byte>)
    requires |field| <= FIELD_LIMIT
    ensures ReadField(EncodeField(field) + tail) == Some((field, tail))
  {
    hide BigEndian, FromBigEndian, Radix;
    var s := EncodeField(field) + tail;
    RadixValues();
    BigEndianRoundTrip(|field|, 4);
    assert s[..4] == BigEndian(|field|, 4);
    assert s[4..4 + |field|] == field && s[4 + |field|..] == tail;
  }

  lemma ReadFieldShape(s: seq<byte>)
    ensures ReadField(s).Some? ==>
              |ReadField(s).value.0| <= FIELD_LIMIT && s == EncodeField(ReadField(s).value.0) + ReadField(s).value.1
  {
    hide BigEndian, FromBigEndian;
    if ReadField(s).Some? {
      FromBigEndianRoundTrip(s[..4]);
      assert s == s[..4] + (ReadField(s).value.0 + ReadField(s).value.1);
    }
  }

  lemma {:induction false} ReadFieldsOf(fields: seq<seq<byte>>, tail: seq<byte>)
    requires Small(fields)
    ensures ReadFields(EncodeFields(fields) + tail, |fields|) == Some((fields, tail))
    decreases |fields|
  {
    hide ReadField, EncodeField;
    if fields == [] {
      assert EncodeFields(fields) + tail == tail;
    } else {
      var rest := EncodeFields(fields[1..]) + tail;
      assert EncodeFields(fields) + tail == EncodeField(fields[0]) + rest;
      ReadFieldOf(fields[0], rest);
      ReadFieldsOf(fields[1..], tail);
      assert fields == [fields[0]] + fields[1..];
    }
  }

  lemma {:induction false} ReadFieldsShape(s: seq<byte>, count: nat)
    ensures var r := ReadFields(s, count);
            r.Some? ==> |r.value.0| == count && Small(r.value.0) && s == EncodeFields(r.value.0) + r.value.1
    decreases count
  {
    hide ReadField, EncodeField;
    if count > 0 && ReadFields(s, count).Some? {
      ReadFieldShape(s);
      var (field, rest) := ReadField(s).value;
      ReadFieldsShape(rest, count - 1);
      var (fields, tail) := ReadFields(rest, count - 1).value;
      assert ([field] + fields)[1..] == fields;
      assert s == EncodeField(field) + (EncodeFields(fields) + tail);
    } else if count == 0 {
      assert s == EncodeFields([]) + s;
    }
  }

  // ----- The message -----

  function Fields(m: Message): seq<seq<byte>> {
    [m.promotion, m.order, m.key, m.user, m.sku]
  }

  /** A message that is not acceptable serializes to nothing. The quantity is cut to 32 bits. */
  function Serialize(m: Message): seq<byte> {
    if !Acceptable(m) then []
    else BigEndian(MAGIC, 4) + BigEndian(m.version, 2) + EncodeFields(Fields(m)) + BigEndian(m.quantity % U32_LIMIT, 4)
  }

  function Deserialize(payload: seq<byte>): Option<Message> {
    if |payload| < 6 || |payload| > PAYLOAD_LIMIT || FromBigEndian(payload[..4]) != MAGIC then None
    else
      match ReadFields(payload[6..], 5)
      case None => None
      case Some((fields, rest)) =>
        if |rest| != 4 || |fields| != 5 then None
        else
          var m := Message(FromBigEndian(payload[4..6]), fields[0], fields[1], fields[2], fields[3], fields[4], FromBigEndian(rest));
          if Acceptable(m) then Some(m) else None
  }

  /** What the four parts of a payload are, when it is accepted. */
  lemma AcceptedShape(payload: seq<byte>)
    requires Deserialize(payload).Some?
    ensures var m := Deserialize(payload).value;
            && Acceptable(m) && Small(Fields(m)) && 0 <= m.quantity < U32_LIMIT
            && payload == BigEndian(MAGIC, 4) + BigEndian(m.version, 2) + EncodeFields(Fields(m)) + BigEndian(m.quantity, 4)
  {
    hide BigEndian, FromBigEndian, ReadFields, EncodeFields, Radix;
    var m := Deserialize(payload).value;
    RadixValues();
    ReadFieldsShape(payload[6..], 5);
    var (fields, rest) := ReadFields(payload[6..], 5).value;
    assert fields == Fields(m);
    FromBigEndianRoundTrip(payload[..4]);
    FromBigEndianRoundTrip(payload[4..6]);
    FromBigEndianRoundTrip(rest);
    assert payload == payload[..4] + payload[4..6] + payload[6..];
  }

  lemma {:induction false} FieldsLength(fields: seq<seq<byte>>)
    requires Small(fields)
    ensures |EncodeFields(fields)| <= |fields| * (FIELD_LIMIT + 4)
  {
    if fields != [] { FieldsLength(fields[1..]); }
  }

  lemma SerializedIsAccepted(m: Message)
    requires Acceptable(m) && Small(Fields(m)) && m.quantity < U32_LIMIT
    ensures Deserialize(Serialize(m)) == Some(m)
  {
    hide BigEndian, FromBigEndian, ReadFields, EncodeFields, Radix;
    var payload, tail := Serialize(m), BigEndian(m.quantity, 4);
    RadixValues();
    BigEndianRoundTrip(MAGIC, 4);
    BigEndianRoundTrip(m.version, 2);
    BigEndianRoundTrip(m.quantity, 4);
    FieldsLength(Fields(m));
    ReadFieldsOf(Fields(m), tail);
    assert payload[..4] == BigEndian(MAGIC, 4);
    assert payload[4..6] == BigEndian(m.version, 2);
    assert payload[6..] == EncodeFields(Fields(m)) + tail;
  }

  /** A field the codec takes. */
  predicate Sized(field: seq<byte>) {
    1 <= |field| <= 4096
  }

  lemma FieldSizes(m: Message)
    ensures Small(Fields(m)) <==> |m.promotion| <= 4096 && |m.order| <= 4096 && |m.key| <= 4096 && |m.user| <= 4096 && |m.sku| <= 4096
  {
    var f := Fields(m);
    assert f[0] == m.promotion && f[1] == m.order && f[2] == m.key && f[3] == m.user && f[4] == m.sku;
  }

  /**
   A message survives the queue exactly when it is acceptable, no field is longer than 4096 bytes and the
   quantity fits 32 bits.
   */
  lemma RoundTripIff(m: Message)
    ensures Deserialize(Serialize(m)) == Some(m) <==>
            && m.version == 1 && Sized(m.promotion) && Sized(m.order) && Sized(m.key) && Sized(m.user) && Sized(m.sku)
            && 0 < m.quantity < 0x1_0000_0000
  {
    hide Serialize, Deserialize;
    assert Small(Fields(m)) <==> |m.promotion| <= 4096 && |m.order| <= 4096 && |m.key| <= 4096 && |m.user| <= 4096 && |m.sku| <= 4096 by {
      FieldSizes(m);
    }
    if Deserialize(Serialize(m)) == Some(m) { AcceptedShape(Serialize(m)); }
    if Acceptable(m) && Small(Fields(m)) && m.quantity < U32_LIMIT { SerializedIsAccepted(m); }
  }

  /** Outside that range a large quantity is not refused: the consumer gets it modulo 2^32. */
  lemma LargeQuantityIsCut(m: Message)
    requires Acceptable(m) && Small(Fields(m)) && m.quantity % U32_LIMIT != 0
    ensures Deserialize(Serialize(m)) == Some(m.(quantity := m.quantity % U32_LIMIT))
  {
    hide Serialize, Deserialize;
    var low := m.quantity % U32_LIMIT;
    SameBytes(m, low);
    SerializedIsAccepted(m.(quantity := low));
  }

  lemma SameBytes(m: Message, low: int)
    requires Acceptable(m) && 0 < low < U32_LIMIT && low == m.quantity % U32_LIMIT
    ensures Serialize(m.(quantity := low)) == Serialize(m)
  {
    hide BigEndian, EncodeFields;
    assert low % U32_LIMIT == low;
  }

  /** Every accepted payload is the serialization of its message, so no message has two encodings. */
  lemma AcceptedIsCanonical(payload: seq<byte>)
    requires Deserialize(payload).Some?
    ensures Serialize(Deserialize(payload).value) == payload
  {
    hide Deserialize, BigEndian, EncodeFields;
    AcceptedShape(payload);
  }

  // ----- The queue between submitters and workers -----

  const QUEUE_LIMIT: nat := 100_000

  class OrderQueue {
    var messages: seq<Message>
    /** Everything ever accepted, and everything ever handed out. */
    ghost var accepted: seq<Message>
    ghost var delivered: seq<Message>

    /** First in, first out, nothing lost or made up. */
    ghost predicate Valid()
      reads this
    {
      && accepted == delivered + messages
      && |messages| <= QUEUE_LIMIT
      && forall i :: 0 <= i < |accepted| ==> Acceptable(accepted[i])
    }

    constructor ()
      ensures Valid() && accepted == [] && delivered == []
    {
      messages, accepted, delivered := [], [], [];
    }

    method Push(m: Message) returns (status: Status)
      requires Valid()
      modifies this
      ensures Valid() && delivered == old(delivered)
      ensures status == if !Acceptable(m) then InvalidArgument
                        else if |old(messages)| >= 100_000 then ResourceExhausted else Ok
      ensures accepted == if status == Ok then old(accepted) + [m] else old(accepted)
    {
      if !Acceptable(m) { return InvalidArgument; }
      if |messages| >= QUEUE_LIMIT { return ResourceExhausted; }
      messages, accepted := messages + [m], accepted + [m];
      return Ok;
    }

    method Pop() returns (status: Status, m: Option<Message>)
      requires Valid()
      modifies this
      ensures Valid() && accepted == old(accepted)
      ensures status == if old(messages) == [] then Incomplete else Ok
      ensures status == Ok ==> m == Some(accepted[|old(delivered)|]) && delivered == old(delivered) + [m.value]
      ensures status != Ok ==> m == None && delivered == old(delivered) && messages == old(messages)
    {
      if messages == [] { return Incomplete, None; }
      m := Some(messages[0]);
      delivered := delivered + [messages[0]];
      messages := messages[1..];
      return Ok, m;
    }
  }
}
