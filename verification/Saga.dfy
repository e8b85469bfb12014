/**
 The flash-sale path of one promotion: submitters pass the gate, take stock and queue a message; workers
 pop messages, retry them, and on failure bury them and compensate. Every action is one atomic step and
 the steps of all submitters and workers interleave freely.
 */
module Saga {
  import opened Common
  import opened Inventory
  import G = Gate

  const QUEUE_CAPACITY: nat := 100_000

  datatype Message = Message(user: string, sku: Sku, quantity: int, order: Op, key: string)

  /** Admitted by the gate; holding stock; queue refused, stock to return; token to return. */
  datatype SubmitStage = Entered | Holding | Returning | Leaving
  datatype Submitter = Submitter(message: Message, stage: SubmitStage)

  /** In attempt `attempt`, the order stored or not; attempts used up; stock to release; token to return. */
  datatype WorkStage = Trying(attempt: nat, stored: bool) | Burying | Undoing | Quitting
  datatype Worker = Worker(message: Message, stage: WorkStage)

  datatype State = State(
    promotion: string, maxAttempts: nat, gate: G.Gate, ledger: Ledger,
    submitters: seq<Submitter>, queue: seq<Message>, workers: seq<Worker>,
    processed: seq<Message>, buried: seq<Message>)

  /** `storage` says whether a write of the inventory to storage succeeds. */
  datatype Event =
    | MoveGate(to: G.GateState)
    | Enter(user: string, sku: Sku, quantity: int, key: string)
    | TakeStock(i: nat, storage: bool)
    | Enqueue(i: nat, accepted: bool)
    | ReturnStock(i: nat, storage: bool)
    | ReturnToken(i: nat)
    | Pop
    | StoreOrder(i: nat, stored: bool)
    | Settle(i: nat, storage: bool)
    | Bury(i: nat, accepted: bool)
    | UndoStock(i: nat, storage: bool)
    | UndoToken(i: nat)

  function OrderId(promotion: string, user: string): Op {
    "flash-order-" + promotion + "-" + user
  }

  // ----- Inventory calls as the saga sees them -----

  function Perform(l: Ledger, call: Call, sku: Sku, storage: bool): (Status, Ledger) {
    match Attempt(l, call, sku)
    case Answer(status) => (status, l)
    case Changed(c) => if storage then (Ok, Land(l, c)) else (Internal, l)
  }

  function Take(l: Ledger, m: Message, storage: bool): (Status, Ledger) {
    Perform(l, Reserve(m.sku, m.quantity, m.order), m.sku, storage)
  }

  function Confirmation(l: Ledger, op: Op, storage: bool): (Status, Ledger) {
    if op in l.reservations then Perform(l, Confirm(op), l.reservations[op].sku, storage) else (NotFound, l)
  }

  function Give(l: Ledger, op: Op, storage: bool): (Status, Ledger) {
    if op in l.reservations then Perform(l, Release(op), l.reservations[op].sku, storage) else (NotFound, l)
  }

  // ----- Steps -----

  function Without<T>(s: seq<T>, i: nat): seq<T>
    requires i < |s|
  {
    s[..i] + s[i + 1..]
  }

  predicate NextGate(from: G.GateState, to: G.GateState) {
    (from == G.Created && to == G.Preheating) || (from == G.Preheating && to == G.Running) ||
    (from == G.Running && to == G.Finished)
  }

  predicate Enabled(s: State, e: Event) {
    match e
    case MoveGate(to) => NextGate(s.gate.state, to)
    case Enter(user, sku, quantity, key) => user != "" && sku != "" && key != "" && quantity > 0
    case TakeStock(i, _) => i < |s.submitters| && s.submitters[i].stage == Entered
    case Enqueue(i, _) => i < |s.submitters| && s.submitters[i].stage == Holding
    case ReturnStock(i, _) => i < |s.submitters| && s.submitters[i].stage == Returning
    case ReturnToken(i) => i < |s.submitters| && s.submitters[i].stage == Leaving
    case Pop => s.queue != [] && s.maxAttempts > 0
    case StoreOrder(i, _) => i < |s.workers| && s.workers[i].stage.Trying? && !s.workers[i].stage.stored
    case Settle(i, _) => i < |s.workers| && s.workers[i].stage.Trying? && s.workers[i].stage.stored
    case Bury(i, _) => i < |s.workers| && s.workers[i].stage == Burying
    case UndoStock(i, _) => i < |s.workers| && s.workers[i].stage == Undoing
    case UndoToken(i) => i < |s.workers| && s.workers[i].stage == Quitting
  }

  function AtStage(s: State, i: nat, stage: SubmitStage): State
    requires i < |s.submitters|
  {
    s.(submitters := s.submitters[i := s.submitters[i].(stage := stage)])
  }

  function AtWork(s: State, i: nat, stage: WorkStage): State
    requires i < |s.workers|
  {
    s.(workers := s.workers[i := s.workers[i].(stage := stage)])
  }

  /** The retry loop: another attempt, or none left. */
  function AfterFailure(s: State, attempt: nat): WorkStage {
    if attempt < s.maxAttempts then Trying(attempt + 1, false) else Burying
  }

  function Do(s: State, e: Event): State
    requires Enabled(s, e)
  {
    match e
    case MoveGate(to) => s.(gate := s.gate.(state := to))
    case Enter(user, sku, quantity, key) =>
      if G.Decide(s.gate, user) == G.Accepted then
        s.(gate := G.Acquire(s.gate, user),
           submitters := s.submitters + [Submitter(Message(user, sku, quantity, OrderId(s.promotion, user), key), Entered)])
      else s
    case TakeStock(i, storage) =>
      var (status, l) := Take(s.ledger, s.submitters[i].message, storage);
      AtStage(s.(ledger := l), i, if status == Ok then Holding else Leaving)
    case Enqueue(i, accepted) =>
      if accepted && |s.queue| < QUEUE_CAPACITY then
        s.(queue := s.queue + [s.submitters[i].message], submitters := Without(s.submitters, i))
      else AtStage(s, i, Returning)
    case ReturnStock(i, storage) =>
      AtStage(s.(ledger := Give(s.ledger, s.submitters[i].message.order, storage).1), i, Leaving)
    case ReturnToken(i) =>
      s.(gate := G.Rollback(s.gate, s.submitters[i].message.user), submitters := Without(s.submitters, i))
    case Pop =>
      s.(queue := s.queue[1..], workers := s.workers + [Worker(s.queue[0], Trying(1, false))])
    case StoreOrder(i, stored) =>
      var a := s.workers[i].stage.attempt;
      AtWork(s, i, if stored then Trying(a, true) else AfterFailure(s, a))
    case Settle(i, storage) =>
      var (status, l) := Confirmation(s.ledger, s.workers[i].message.order, storage);
      if status == Ok then
        s.(ledger := l, processed := s.processed + [s.workers[i].message], workers := Without(s.workers, i))
      else AtWork(s.(ledger := l), i, AfterFailure(s, s.workers[i].stage.attempt))
    case Bury(i, accepted) =>
      AtWork(s.(buried := if accepted then s.buried + [s.workers[i].message] else s.buried), i, Undoing)
    case UndoStock(i, storage) =>
      AtWork(s.(ledger := Give(s.ledger, s.workers[i].message.order, storage).1), i, Quitting)
    case UndoToken(i) =>
      s.(gate := G.Rollback(s.gate, s.workers[i].message.user), workers := Without(s.workers, i))
  }

  // ----- Who owns each admission -----

  /** How often each user occurs. */
  function Tally(ms: seq<Message>): multiset<string> {
    if ms == [] then multiset{} else multiset{ms[0].user} + Tally(ms[1..])
  }

  lemma {:induction false} TallyConcat(a: seq<Message>, b: seq<Message>)
    ensures Tally(a + b) == Tally(a) + Tally(b)
  {
    if a == [] {
      assert a + b == b;
    } else {
      assert (a + b)[1..] == a[1..] + b;
      TallyConcat(a[1..], b);
    }
  }

  lemma TallyOne(m: Message)
    ensures Tally([m]) == multiset{m.user}
  {
    assert [m][1..] == [];
  }

  lemma TallyWithout(ms: seq<Message>, i: nat)
    requires i < |ms|
    ensures Tally(ms) == Tally(Without(ms, i)) + multiset{ms[i].user}
  {
    hide Tally;
    assert ms == ms[..i] + ([ms[i]] + ms[i + 1..]);
    TallyConcat(ms[..i], [ms[i]] + ms[i + 1..]);
    TallyConcat([ms[i]], ms[i + 1..]);
    TallyConcat(ms[..i], ms[i + 1..]);
    TallyOne(ms[i]);
  }

  lemma {:induction false} TallySize(ms: seq<Message>)
    ensures |Tally(ms)| == |ms|
  {
    if ms != [] { TallySize(ms[1..]); }
  }

  function OfSubmitters(ss: seq<Submitter>): (r: seq<Message>)
    ensures |r| == |ss| && forall i :: 0 <= i < |ss| ==> r[i] == ss[i].message
  {
    seq(|ss|, i requires 0 <= i < |ss| => ss[i].message)
  }

  function OfWorkers(ws: seq<Worker>): (r: seq<Message>)
    ensures |r| == |ws| && forall i :: 0 <= i < |ws| ==> r[i] == ws[i].message
  {
    seq(|ws|, i requires 0 <= i < |ws| => ws[i].message)
  }

  /** Every owner of an admission: submitters in flight, queued messages, workers, processed orders. */
  function Tokens(s: State): multiset<string> {
    Tally(OfSubmitters(s.submitters)) + Tally(s.queue) + Tally(OfWorkers(s.workers)) + Tally(s.processed)
  }

  predicate Named(s: State, ms: seq<Message>) {
    forall i :: 0 <= i < |ms| ==> ms[i].order == OrderId(s.promotion, ms[i].user) && ms[i].quantity > 0 && ms[i].sku != "" && ms[i].order != ""
  }

  /** Each admitted user is owned exactly once. */
  predicate TokenInv(s: State) {
    && G.Sound(s.gate)
    && Tokens(s) == multiset(s.gate.users)
    && |s.queue| <= QUEUE_CAPACITY
    && Named(s, OfSubmitters(s.submitters)) && Named(s, s.queue) && Named(s, OfWorkers(s.workers)) && Named(s, s.processed)
  }

  lemma RollbackTakesOne(g: G.Gate, user: string)
    requires G.Sound(g) && user in g.users
    ensures G.Sound(G.Rollback(g, user))
    ensures multiset(G.Rollback(g, user).users) == multiset(g.users) - multiset{user}
  {
    G.RollbackIsSound(g, user);
  }

  lemma OwnerIsAdmitted(s: State, user: string)
    requires TokenInv(s) && user in Tokens(s)
    ensures user in s.gate.users
  {}

  lemma EnterKeepsTokens(s: State, e: Event)
    requires TokenInv(s) && Enabled(s, e) && e.Enter?
    ensures TokenInv(Do(s, e))
  {
    hide Tally, OrderId;
    if G.Decide(s.gate, e.user) == G.Accepted {
      var m := Message(e.user, e.sku, e.quantity, OrderId(s.promotion, e.user), e.key);
      G.AcquireIsSound(s.gate, e.user);
      TallyConcat(OfSubmitters(s.submitters), [m]);
      TallyOne(m);
      assert OfSubmitters(Do(s, e).submitters) == OfSubmitters(s.submitters) + [m];
      assert multiset(s.gate.users + {e.user}) == multiset(s.gate.users) + multiset{e.user};
      NamedParts(s.promotion, m.user);
    }
  }

  lemma NamedParts(promotion: string, user: string)
    ensures OrderId(promotion, user) != ""
  {}

  lemma SubmitterLeaves(s: State, i: nat)
    requires i < |s.submitters|
    ensures OfSubmitters(Without(s.submitters, i)) == Without(OfSubmitters(s.submitters), i)
    ensures Tally(OfSubmitters(s.submitters))
            == Tally(OfSubmitters(Without(s.submitters, i))) + multiset{s.submitters[i].message.user}
    ensures Named(s, OfSubmitters(s.submitters)) ==> Named(s, OfSubmitters(Without(s.submitters, i)))
  {
    hide Tally;
    assert OfSubmitters(Without(s.submitters, i)) == Without(OfSubmitters(s.submitters), i);
    TallyWithout(OfSubmitters(s.submitters), i);
  }

  lemma WorkerLeaves(s: State, i: nat)
    requires i < |s.workers|
    ensures OfWorkers(Without(s.workers, i)) == Without(OfWorkers(s.workers), i)
    ensures Tally(OfWorkers(s.workers))
            == Tally(OfWorkers(Without(s.workers, i))) + multiset{s.workers[i].message.user}
    ensures Named(s, OfWorkers(s.workers)) ==> Named(s, OfWorkers(Without(s.workers, i)))
  {
    hide Tally;
    assert OfWorkers(Without(s.workers, i)) == Without(OfWorkers(s.workers), i);
    TallyWithout(OfWorkers(s.workers), i);
  }

  /** A step that only moves an owner to another stage. */
  lemma MovingKeepsTokens(s: State, s': State)
    requires TokenInv(s)
    requires s'.promotion == s.promotion && s'.gate == s.gate && s'.queue == s.queue && s'.processed == s.processed
    requires OfSubmitters(s'.submitters) == OfSubmitters(s.submitters)
    requires OfWorkers(s'.workers) == OfWorkers(s.workers)
    ensures TokenInv(s')
  {
    hide Tally, OrderId;
  }

  lemma QueuedKeepsTokens(s: State, i: nat)
    requires TokenInv(s) && i < |s.submitters| && |s.queue| < QUEUE_CAPACITY
    ensures TokenInv(s.(queue := s.queue + [s.submitters[i].message], submitters := Without(s.submitters, i)))
  {
    hide Tally, OrderId;
    var m := s.submitters[i].message;
    SubmitterLeaves(s, i);
    TallyConcat(s.queue, [m]);
    TallyOne(m);
    assert OfSubmitters(s.submitters)[i] == m;
  }

  lemma ProcessedKeepsTokens(s: State, i: nat)
    requires TokenInv(s) && i < |s.workers|
    ensures TokenInv(s.(processed := s.processed + [s.workers[i].message], workers := Without(s.workers, i)))
  {
    hide Tally, OrderId;
    var m := s.workers[i].message;
    WorkerLeaves(s, i);
    TallyConcat(s.processed, [m]);
    TallyOne(m);
    assert OfWorkers(s.workers)[i] == m;
  }

  lemma SubmitterReturns(s: State, i: nat)
    requires TokenInv(s) && i < |s.submitters|
    ensures TokenInv(s.(gate := G.Rollback(s.gate, s.submitters[i].message.user), submitters := Without(s.submitters, i)))
  {
    hide Tally, OrderId;
    var user := s.submitters[i].message.user;
    SubmitterLeaves(s, i);
    OwnerIsAdmitted(s, user);
    RollbackTakesOne(s.gate, user);
  }

  lemma WorkerReturns(s: State, i: nat)
    requires TokenInv(s) && i < |s.workers|
    ensures TokenInv(s.(gate := G.Rollback(s.gate, s.workers[i].message.user), workers := Without(s.workers, i)))
  {
    hide Tally, OrderId;
    var user := s.workers[i].message.user;
    WorkerLeaves(s, i);
    OwnerIsAdmitted(s, user);
    RollbackTakesOne(s.gate, user);
  }

  lemma SubmitterStepKeepsTokens(s: State, e: Event)
    requires TokenInv(s) && Enabled(s, e)
    requires e.TakeStock? || e.Enqueue? || e.ReturnStock? || e.ReturnToken?
    ensures TokenInv(Do(s, e))
  {
    hide TokenInv, Take, Give;
    match e
    case TakeStock(i, storage) => MovingKeepsTokens(s, Do(s, e));
    case Enqueue(i, accepted) =>
      if accepted && |s.queue| < QUEUE_CAPACITY { QueuedKeepsTokens(s, i); } else { MovingKeepsTokens(s, Do(s, e)); }
    case ReturnStock(i, _) => MovingKeepsTokens(s, Do(s, e));
    case ReturnToken(i) => SubmitterReturns(s, i);
  }

  lemma WorkerStepKeepsTokens(s: State, e: Event)
    requires TokenInv(s) && Enabled(s, e)
    requires e.StoreOrder? || e.Settle? || e.Bury? || e.UndoStock? || e.UndoToken?
    ensures TokenInv(Do(s, e))
  {
    hide TokenInv, Confirmation, Give;
    match e
    case StoreOrder(i, _) => MovingKeepsTokens(s, Do(s, e));
    case Settle(i, storage) =>
      var (status, l) := Confirmation(s.ledger, s.workers[i].message.order, storage);
      if status == Ok {
        ProcessedKeepsTokens(s, i);
        MovingKeepsTokens(s.(processed := s.processed + [s.workers[i].message], workers := Without(s.workers, i)), Do(s, e));
      } else {
        MovingKeepsTokens(s, Do(s, e));
      }
    case Bury(i, _) => MovingKeepsTokens(s, Do(s, e));
    case UndoStock(i, _) => MovingKeepsTokens(s, Do(s, e));
    case UndoToken(i) => WorkerReturns(s, i);
  }

  lemma PopKeepsTokens(s: State)
    requires TokenInv(s) && Enabled(s, Pop)
    ensures TokenInv(Do(s, Pop))
  {
    hide Tally, OrderId;
    var m := s.queue[0];
    TallyWithout(s.queue, 0);
    assert Without(s.queue, 0) == s.queue[1..];
    TallyConcat(OfWorkers(s.workers), [m]);
    TallyOne(m);
    assert OfWorkers(Do(s, Pop).workers) == OfWorkers(s.workers) + [m];
  }

  /** Every step keeps every admission owned exactly once, whatever fails. */
  lemma StepKeepsTokens(s: State, e: Event)
    requires TokenInv(s) && Enabled(s, e)
    ensures TokenInv(Do(s, e))
  {
    hide TokenInv;
    match e
    case MoveGate(to) => MoveGateKeepsTokens(s, to);
    case Enter(_, _, _, _) => EnterKeepsTokens(s, e);
    case TakeStock(_, _) => SubmitterStepKeepsTokens(s, e);
    case Enqueue(_, _) => SubmitterStepKeepsTokens(s, e);
    case ReturnStock(_, _) => SubmitterStepKeepsTokens(s, e);
    case ReturnToken(_) => SubmitterStepKeepsTokens(s, e);
    case Pop => PopKeepsTokens(s);
    case StoreOrder(_, _) => WorkerStepKeepsTokens(s, e);
    case Settle(_, _) => WorkerStepKeepsTokens(s, e);
    case Bury(_, _) => WorkerStepKeepsTokens(s, e);
    case UndoStock(_, _) => WorkerStepKeepsTokens(s, e);
    case UndoToken(_) => WorkerStepKeepsTokens(s, e);
  }

  lemma MoveGateKeepsTokens(s: State, to: G.GateState)
    requires TokenInv(s)
    ensures TokenInv(s.(gate := s.gate.(state := to)))
  {
    hide Tally, OrderId;
  }
}
