/** The order table and its idempotency index: the stored record, creation with undo, and retries. */
module OrderService {
  import opened Common
  import opened Text

  datatype Order = Order(id: string, key: string, user: string, sku: string, quantity: int)

  // ----- The record of an order -----

  /** Tab-separated; the last field is the state. */
  function Written(o: Order, state: int): string {
    o.id + "\t" + (o.key + "\t" + (o.user + "\t" + (o.sku + "\t" + (ToText(o.quantity) + ("\t" + ToText(state))))))
  }

  /** There is one state, numbered zero. */
  function Serialize(o: Order): string {
    Written(o, 0)
  }

  /** The next four tab-terminated texts and what follows. */
  function FourLines(s: string): Option<(string, string, string, string, string)> {
    match GetLine(s, '\t')
    case None => None
    case Some((a, s1)) =>
      match GetLine(s1, '\t')
      case None => None
      case Some((b, s2)) =>
        match GetLine(s2, '\t')
        case None => None
        case Some((c, s3)) =>
          match GetLine(s3, '\t')
          case None => None
          case Some((d, rest)) => Some((a, b, c, d, rest))
  }

  function Deserialize(s: string): Option<Order> {
    match FourLines(s)
    case None => None
    case Some((id, key, user, sku, rest)) =>
      match ReadInt(rest)
      case None => None
      case Some((quantity, more)) =>
        if more == "" || more[0] != '\t' then None
        else
          match ReadInt(more[1..])
          case None => None
          case Some((state, _)) => if 0 <= state <= 3 then Some(Order(id, key, user, sku, quantity)) else None
  }

  predicate TabFree(o: Order) {
    '\t' !in o.id && '\t' !in o.key && '\t' !in o.user && '\t' !in o.sku
  }

  lemma FourLinesOf(a: string, b: string, c: string, d: string, rest: string)
    requires '\t' !in a && '\t' !in b && '\t' !in c && '\t' !in d
    ensures FourLines(a + "\t" + (b + "\t" + (c + "\t" + (d + "\t" + rest)))) == Some((a, b, c, d, rest))
  {
    hide GetLine;
    GetLineOf(a, '\t', b + "\t" + (c + "\t" + (d + "\t" + rest)));
    GetLineOf(b, '\t', c + "\t" + (d + "\t" + rest));
    GetLineOf(c, '\t', d + "\t" + rest);
    GetLineOf(d, '\t', rest);
  }

  lemma FourLinesHaveNoTab(s: string)
    requires FourLines(s).Some?
    ensures var (a, b, c, d, _) := FourLines(s).value; '\t' !in a && '\t' !in b && '\t' !in c && '\t' !in d
  {
    hide Before;
    BeforeHasNoDelimiter(s, '\t');
    var s1 := Before(s, '\t').1;
    BeforeHasNoDelimiter(s1, '\t');
    var s2 := Before(s1, '\t').1;
    BeforeHasNoDelimiter(s2, '\t');
    var s3 := Before(s2, '\t').1;
    BeforeHasNoDelimiter(s3, '\t');
  }

  /** A record of a tab-free order reads back exactly when its state is one of 0 to 3. */
  lemma ReadsIfState(o: Order, state: int)
    requires TabFree(o) && INT64_MIN <= o.quantity <= INT64_MAX && INT64_MIN <= state <= INT64_MAX
    ensures Deserialize(Written(o, state)) == if 0 <= state <= 3 then Some(o) else None
  {
    hide FourLines, ReadInt, ToText, GetLine;
    var tail := "\t" + ToText(state);
    FourLinesOf(o.id, o.key, o.user, o.sku, ToText(o.quantity) + tail);
    ReadIntOf(o.quantity, tail);
    ReadIntOf(state, "");
    assert tail[1..] == ToText(state) && ToText(state) + "" == ToText(state);
  }

  /** A stored order reads back exactly when none of its texts holds a tab. */
  lemma RoundTripIff(o: Order)
    requires INT64_MIN <= o.quantity <= INT64_MAX
    ensures Deserialize(Serialize(o)) == Some(o) <==> TabFree(o)
  {
    if TabFree(o) { ReadsIfState(o, 0); }
    hide FourLines, ReadInt, Written;
    if Deserialize(Serialize(o)) == Some(o) { FourLinesHaveNoTab(Serialize(o)); }
  }

  // ----- Creating an order -----

  /** Memory, and what the storage engine holds under the orders prefix, by order id. */
  datatype Book = Book(orders: map<string, Order>, index: map<string, string>, disk: map<string, string>)

  datatype Call = Call(id: string, user: string, sku: string, quantity: int, key: string)

  /** How the engine and the publisher answer to a call: the write, the event, the delete of the undo. */
  datatype Answers = Answers(stores: bool, publishes: bool, deletes: bool)

  predicate GoodCall(c: Call) {
    c.id != "" && c.user != "" && c.sku != "" && c.quantity > 0 && c.key != ""
  }

  predicate SameData(o: Order, c: Call) {
    o.user == c.user && o.sku == c.sku && o.quantity == c.quantity
  }

  function Made(c: Call): Order {
    Order(c.id, c.key, c.user, c.sku, c.quantity)
  }

  /** The call gets past its checks and goes on to write. */
  predicate Proceeds(b: Book, c: Call) {
    GoodCall(c) && c.key !in b.index && c.id !in b.orders
  }

  /** The answer of a call that does not get that far. */
  function Answer(b: Book, c: Call): (Status, Option<Order>) {
    if !GoodCall(c) then (InvalidArgument, None)
    else if c.key in b.index then
      if b.index[c.key] !in b.orders then (Internal, None)
      else if SameData(b.orders[b.index[c.key]], c) then (Ok, Some(b.orders[b.index[c.key]]))
      else (FailedPrecondition, None)
    else (AlreadyExists, None)
  }

  function Enter(b: Book, c: Call): Book {
    Book(b.orders[c.id := Made(c)], b.index[c.key := c.id], b.disk[c.id := Serialize(Made(c))])
  }

  function Forget(b: Book, c: Call): Book {
    b.(orders := b.orders - {c.id}, index := b.index - {c.key})
  }

  function Create(b: Book, c: Call, a: Answers): (Status, Book, Option<Order>) {
    if !Proceeds(b, c) then (Answer(b, c).0, b, Answer(b, c).1)
    else if !a.stores then (Internal, b, None)
    else if a.publishes then (Ok, Enter(b, c), Some(Made(c)))
    else
      var undone := Forget(Enter(b, c), c);
      (Internal, if a.deletes then undone.(disk := undone.disk - {c.id}) else undone, None)
  }

  /** The index and the table are inverse maps. */
  predicate Inverse(b: Book) {
    && (forall k :: k in b.index ==> b.index[k] in b.orders && b.orders[b.index[k]].key == k)
    && (forall id :: id in b.orders ==> b.orders[id].id == id && b.orders[id].key in b.index && b.index[b.orders[id].key] == id)
  }

  /** The storage engine holds exactly the orders in memory. */
  ghost predicate Mirrored(b: Book) {
    b.disk.Keys == b.orders.Keys && forall id :: id in b.orders ==> b.disk[id] == Serialize(b.orders[id])
  }

  lemma ForgetUndoes(b: Book, c: Call)
    requires Proceeds(b, c)
    ensures Forget(Enter(b, c), c).orders == b.orders && Forget(Enter(b, c), c).index == b.index
  {
    hide Serialize;
  }

  lemma CreateAnswers(b: Book, c: Call, a: Answers)
    requires Inverse(b)
    ensures forall id :: id in b.orders ==> id in Create(b, c, a).1.orders && Create(b, c, a).1.orders[id] == b.orders[id]
    ensures Create(b, c, a).0 == Ok <==> Create(b, c, a).2.Some?
    ensures Create(b, c, a).0 == Ok ==>
              var o := Create(b, c, a).2.value;
              o.key == c.key && SameData(o, c) && o.id in Create(b, c, a).1.orders && Create(b, c, a).1.orders[o.id] == o
    ensures Create(b, c, a).0 != Ok ==> Create(b, c, a).1.orders == b.orders && Create(b, c, a).1.index == b.index
  {
    hide Serialize, Forget;
    if Proceeds(b, c) { ForgetUndoes(b, c); }
  }

  lemma EnterKeepsInverse(b: Book, c: Call)
    requires Inverse(b) && Proceeds(b, c)
    ensures Inverse(Enter(b, c))
  {
    hide Serialize;
  }

  lemma CreateKeepsInverse(b: Book, c: Call, a: Answers)
    requires Inverse(b)
    ensures Inverse(Create(b, c, a).1)
  {
    hide Serialize, Enter, Forget;
    if Proceeds(b, c) {
      EnterKeepsInverse(b, c);
      ForgetUndoes(b, c);
    }
  }

  /** A call keeps storage and memory equal unless its event is refused and then its record not deleted. */
  lemma CreateKeepsMirrorIff(b: Book, c: Call, a: Answers)
    requires Inverse(b) && Mirrored(b)
    ensures Mirrored(Create(b, c, a).1) <==> !(Proceeds(b, c) && a.stores && !a.publishes && !a.deletes)
  {
    hide Inverse;
    if Proceeds(b, c) {
      EnterMirrors(b, c);
      LeftRecord(b, c);
    }
  }

  lemma EnterMirrors(b: Book, c: Call)
    requires Mirrored(b) && Proceeds(b, c)
    ensures Mirrored(Enter(b, c))
    ensures var undone := Forget(Enter(b, c), c); Mirrored(undone.(disk := undone.disk - {c.id}))
  {
    hide Serialize;
    ForgetUndoes(b, c);
    assert Enter(b, c).disk - {c.id} == b.disk;
  }

  lemma LeftRecord(b: Book, c: Call)
    requires Mirrored(b) && Proceeds(b, c)
    ensures !Mirrored(Forget(Enter(b, c), c))
  {
    hide Serialize;
    ForgetUndoes(b, c);
    assert c.id in Forget(Enter(b, c), c).disk;
  }

  // ----- Runs of whole calls -----

  function CreateAll(b: Book, cs: seq<(Call, Answers)>): Book
    decreases |cs|
  {
    if cs == [] then b else CreateAll(Create(b, cs[0].0, cs[0].1).1, cs[1..])
  }

  lemma {:induction false} RunKeeps(b: Book, cs: seq<(Call, Answers)>)
    requires Inverse(b)
    ensures Inverse(CreateAll(b, cs))
    ensures Mirrored(b) && (forall i :: 0 <= i < |cs| ==> cs[i].1.deletes) ==> Mirrored(CreateAll(b, cs))
    ensures forall id :: id in b.orders ==> id in CreateAll(b, cs).orders && CreateAll(b, cs).orders[id] == b.orders[id]
    decreases |cs|
  {
    hide Create, Inverse, Mirrored;
    if cs != [] {
      CreateAnswers(b, cs[0].0, cs[0].1);
      CreateKeepsInverse(b, cs[0].0, cs[0].1);
      if Mirrored(b) && cs[0].1.deletes { CreateKeepsMirrorIff(b, cs[0].0, cs[0].1); }
      RunKeeps(Create(b, cs[0].0, cs[0].1).1, cs[1..]);
    }
  }

  /**
   In every run, publish failures and undo included: the index and the table are inverse, no two orders share an
   idempotency key, and, when the undo's deletes succeed, the engine holds exactly the orders in memory.
   */
  lemma EveryRunIsConsistent(cs: seq<(Call, Answers)>)
    ensures var f := CreateAll(Book(map[], map[], map[]), cs);
            && Inverse(f)
            && (forall i, j :: i in f.orders && j in f.orders && f.orders[i].key == f.orders[j].key ==> i == j)
            && ((forall i :: 0 <= i < |cs| ==> cs[i].1.deletes) ==> Mirrored(f))
  {
    hide CreateAll, Serialize;
    RunKeeps(Book(map[], map[], map[]), cs);
  }

  /** However much later, a retry with the same data returns the stored order and changes nothing. */
  lemma RetryReturnsTheOrder(b: Book, c: Call, a: Answers, between: seq<(Call, Answers)>, again: Call, d: Answers)
    requires Inverse(b) && Create(b, c, a).0 == Ok
    requires GoodCall(again) && again.key == c.key && again.user == c.user && again.sku == c.sku && again.quantity == c.quantity
    ensures var later := CreateAll(Create(b, c, a).1, between);
            Create(later, again, d) == (Ok, later, Create(b, c, a).2)
  {
    hide CreateAll, Serialize;
    CreateAnswers(b, c, a);
    CreateKeepsInverse(b, c, a);
    var o := Create(b, c, a).2.value;
    RunKeeps(Create(b, c, a).1, between);
    var later := CreateAll(Create(b, c, a).1, between);
    assert o.id in later.orders && later.orders[o.id] == o;
  }

  // ----- What a restart rebuilds -----

  ghost predicate AllDecode(disk: map<string, string>) {
    forall d :: d in disk ==> Deserialize(disk[d]).Some?
  }

  /** A stored record holds the order. */
  ghost predicate Records(disk: map<string, string>, o: Order) {
    exists d :: d in disk && Deserialize(disk[d]) == Some(o)
  }

  /**
   What reading all records leaves, in whatever order they are listed: the last record of each order id and the
   last one of each idempotency key.
   */
  ghost predicate Rebuilt(disk: map<string, string>, orders: map<string, Order>, index: map<string, string>) {
    AllEntered(disk, orders, index) && OrdersStored(disk, orders) && IndexStored(disk, index)
  }

  ghost predicate AllEntered(disk: map<string, string>, orders: map<string, Order>, index: map<string, string>) {
    forall o :: Records(disk, o) ==> o.id in orders && o.key in index
  }

  ghost predicate OrdersStored(disk: map<string, string>, orders: map<string, Order>) {
    forall id :: id in orders ==> orders[id].id == id && Records(disk, orders[id])
  }

  ghost predicate IndexStored(disk: map<string, string>, index: map<string, string>) {
    forall k :: k in index ==> Indexed(disk, k, index[k])
  }

  /** A stored record has this key and this order id. */
  ghost predicate Indexed(disk: map<string, string>, key: string, id: string) {
    exists o :: Records(disk, o) && o.key == key && o.id == id
  }

  class Orders {
    var orders: map<string, Order>
    var index: map<string, string>
    var disk: map<string, string>

    function View(): Book
      reads this
    {
      Book(orders, index, disk)
    }

    constructor ()
      ensures View() == Book(map[], map[], map[]) && Inverse(View())
    {
      orders, index, disk := map[], map[], map[];
    }

    method CreateOrder(c: Call, a: Answers) returns (status: Status, order: Option<Order>)
      requires Inverse(View())
      modifies this
      ensures Inverse(View()) && (status, View(), order) == Create(old(View()), c, a)
      ensures status == if c.id == "" || c.user == "" || c.sku == "" || c.quantity <= 0 || c.key == "" then InvalidArgument
                        else if c.key in old(index) then
                          var o := old(orders)[old(index)[c.key]];
                          if o.user == c.user && o.sku == c.sku && o.quantity == c.quantity then Ok else FailedPrecondition
                        else if c.id in old(orders) then AlreadyExists
                        else if a.stores && a.publishes then Ok else Internal
      ensures status == Ok && c.key in old(index) ==> order == Some(old(orders)[old(index)[c.key]]) && unchanged(this)
      ensures status == Ok && c.key !in old(index) ==>
                && order.Some? && order.value.id == c.id && order.value.key == c.key && order.value.user == c.user
                && order.value.sku == c.sku && order.value.quantity == c.quantity
                && orders == old(orders)[c.id := order.value] && index == old(index)[c.key := c.id]
      ensures status != Ok ==> order == None && orders == old(orders) && index == old(index)
    {
      hide Serialize;
      CreateKeepsInverse(View(), c, a);
      if Proceeds(View(), c) { ForgetUndoes(View(), c); }
      if !GoodCall(c) { return InvalidArgument, None; }
      if c.key in index {
        if index[c.key] !in orders { return Internal, None; }
        var o := orders[index[c.key]];
        if o.user != c.user || o.sku != c.sku || o.quantity != c.quantity { return FailedPrecondition, None; }
        return Ok, Some(o);
      }
      if c.id in orders { return AlreadyExists, None; }
      if !a.stores { return Internal, None; }
      Store(c);
      if !a.publishes {
        Undo(c, a.deletes);
        return Internal, None;
      }
      return Ok, Some(Made(c));
    }

    method Store(c: Call)
      modifies this
      ensures View() == Enter(old(View()), c)
    {
      var created := Order(c.id, c.key, c.user, c.sku, c.quantity);
      disk := disk[c.id := Serialize(created)];
      orders := orders[c.id := created];
      index := index[c.key := c.id];
    }

    method Undo(c: Call, deletes: bool)
      modifies this
      ensures var b := Forget(old(View()), c);
              View() == if deletes then b.(disk := b.disk - {c.id}) else b
    {
      orders := orders - {c.id};
      index := index - {c.key};
      if deletes { disk := disk - {c.id}; }
    }

    /** `restore` up to the release of orphans, over whatever records there are. */
    method Restore() returns (status: Status)
      modifies this`orders, this`index
      ensures status == Ok <==> AllDecode(disk)
      ensures status == Ok ==> Rebuilt(disk, orders, index)
    {
      hide Deserialize, Rebuilt;
      orders, index := map[], map[];
      RebuiltNothing();
      var todo := disk.Keys;
      ghost var done: map<string, string> := map[];
      while todo != {}
        invariant todo <= disk.Keys && done.Keys == disk.Keys - todo
        invariant forall d :: d in done ==> done[d] == disk[d]
        invariant AllDecode(done) && Rebuilt(done, orders, index)
        decreases |todo|
      {
        var d :| d in todo;
        var order := Deserialize(disk[d]);
        if order.None? { return Internal; }
        ReadOne(done, orders, index, d, disk[d]);
        orders := orders[order.value.id := order.value];
        index := index[order.value.key := order.value.id];
        done := done[d := disk[d]];
        todo := todo - {d};
      }
      assert done == disk;
      return Ok;
    }
  }

  lemma RebuiltNothing()
    ensures Rebuilt(map[], map[], map[])
  {}

  lemma MoreRecords(done: map<string, string>, d: string, record: string, x: Order)
    requires d !in done && Deserialize(record).Some?
    ensures Records(done[d := record], x) <==> x == Deserialize(record).value || Records(done, x)
  {
    hide Deserialize;
    var more := done[d := record];
    assert d in more && more[d] == record;
    if Records(more, x) {
      var e :| e in more && Deserialize(more[e]) == Some(x);
      if e != d { assert e in done && done[e] == more[e]; }
    }
    if Records(done, x) {
      var e :| e in done && Deserialize(done[e]) == Some(x);
      assert e in more && more[e] == done[e];
    }
  }

  /** One more record. */
  lemma ReadOne(done: map<string, string>, orders: map<string, Order>, index: map<string, string>, d: string, record: string)
    requires Rebuilt(done, orders, index) && d !in done && Deserialize(record).Some?
    ensures var o := Deserialize(record).value;
            Rebuilt(done[d := record], orders[o.id := o], index[o.key := o.id])
  {
    hide Deserialize, Records;
    var o, more := Deserialize(record).value, done[d := record];
    MoreRecords(done, d, record, o);
    forall x | Records(more, x) ensures x.id in orders[o.id := o] && x.key in index[o.key := o.id] {
      MoreRecords(done, d, record, x);
    }
    OneOrder(done, orders, d, record);
    OneKey(done, index, d, record);
  }

  lemma OneOrder(done: map<string, string>, orders: map<string, Order>, d: string, record: string)
    requires OrdersStored(done, orders) && d !in done && Deserialize(record).Some?
    ensures var o := Deserialize(record).value; OrdersStored(done[d := record], orders[o.id := o])
  {
    hide Deserialize, Records;
    var o := Deserialize(record).value;
    var after := orders[o.id := o];
    forall id | id in after ensures Records(done[d := record], after[id]) { MoreRecords(done, d, record, after[id]); }
  }

  lemma OneKey(done: map<string, string>, index: map<string, string>, d: string, record: string)
    requires IndexStored(done, index) && d !in done && Deserialize(record).Some?
    ensures var o := Deserialize(record).value; IndexStored(done[d := record], index[o.key := o.id])
  {
    hide Deserialize, Records;
    var o, more := Deserialize(record).value, done[d := record];
    MoreRecords(done, d, record, o);
    assert Indexed(more, o.key, o.id);
    forall k | k in index ensures Indexed(more, k, index[k]) {
      var x :| Records(done, x) && x.key == k && x.id == index[k];
      MoreRecords(done, d, record, x);
    }
  }
}
