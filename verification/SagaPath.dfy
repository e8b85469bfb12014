/**
 The two procedures of the flash-sale path, `submit` and `processOnce`, as the code runs them, proved to be
 runs of the saga's atomic steps. What foreign code answers (storage, queue, order repository) is a parameter.
 */
module SagaPath {
  import opened Common
  import opened Inventory
  import opened Saga
  import opened SagaStock
  import G = Gate

  datatype SubmitCode = Queued | AlreadyAdmitted | NotStarted | Finished | Exhausted | Rejected

  function MapGateCode(code: G.AdmissionCode): SubmitCode {
    match code
    case Accepted => Queued
    case Duplicate => AlreadyAdmitted
    case GateFinished => Finished
    case Exhausted => Exhausted
    case NotStarted => NotStarted
  }

  // ----- Runs, one step at a time -----

  lemma {:induction false} RunExtends(s: State, es: seq<Event>, e: Event)
    requires CanRun(s, es) && Enabled(Run(s, es), e)
    ensures CanRun(s, es + [e]) && Run(s, es + [e]) == Do(Run(s, es), e)
    decreases |es|
  {
    hide Do, Enabled;
    if es == [] {
      assert es + [e] == [e] && [e][1..] == [];
    } else {
      assert (es + [e])[0] == es[0] && (es + [e])[1..] == es[1..] + [e];
      RunExtends(Do(s, es[0]), es[1..], e);
    }
  }

  ghost predicate Reaches(from: State, steps: seq<Event>, to: State) {
    CanRun(from, steps) && Run(from, steps) == to
  }

  lemma Step(from: State, steps: seq<Event>, s: State, e: Event)
    requires Reaches(from, steps, s) && Enabled(s, e)
    ensures Reaches(from, steps + [e], Do(s, e))
  {
    hide CanRun, Run, Do, Enabled;
    RunExtends(from, steps, e);
  }

  lemma NoSteps(s: State)
    ensures Reaches(s, [], s)
  {}

  lemma LastLeaves<T>(a: seq<T>, x: T)
    ensures Without(a + [x], |a|) == a
  {}

  lemma OrderIdText(promotion: string, user: string)
    ensures OrderId(promotion, user) == "flash-order-" + promotion + "-" + user
  {}

  /** Some attempt within the limit stores the order and has its confirmation accepted. */
  ghost predicate Succeeds(s: State, order: Op, stores: nat -> bool, confirmWrites: nat -> bool, attempts: nat) {
    exists a :: 1 <= a <= attempts && Completes(s.ledger, order, stores(a), confirmWrites(a))
  }

  predicate Completes(l: Ledger, order: Op, stores: bool, confirmWrites: bool) {
    stores && Confirmation(l, order, confirmWrites).0 == Ok
  }

  class FlashSalePath {
    var s: State
    var processed: nat
    var deadLettered: nat

    /**
     Everything `submit` does, in its order. It leaves no submitter behind; it answers Queued exactly when the
     message joined the queue, and otherwise queue and gate are as they were. `push` is what the queue
     answers while it has room.
     */
    method Submit(user: string, sku: Sku, quantity: int, key: string, reserveWrites: bool, push: Status, releaseWrites: bool)
      returns (status: Status, code: SubmitCode, ghost steps: seq<Event>)
      requires s.promotion != "" && G.Sound(s.gate)
      modifies this`s
      ensures Reaches(old(s), steps, s)
      ensures s.submitters == old(s.submitters) && s.workers == old(s.workers) && s.processed == old(s.processed)
      ensures status == InvalidArgument && steps == [] <==> user == "" || sku == "" || key == "" || quantity <= 0
      ensures code == Queued ==> status == Ok && G.HasPlace(old(s.gate), user)
      ensures s.queue == old(s.queue)
              + if code == Queued then [Message(user, sku, quantity, "flash-order-" + s.promotion + "-" + user, key)] else []
      ensures s.gate == if code == Queued then old(s.gate).(users := old(s.gate.users) + {user}, admitted := |old(s.gate.users)| + 1)
                        else old(s.gate)
      ensures steps != [] && G.HasPlace(old(s.gate), user) ==>
                var taken := Take(old(s.ledger), Message(user, sku, quantity, OrderId(s.promotion, user), key), reserveWrites).0;
                && status == (if taken != Ok then taken else if push != Ok then push
                              else if |old(s.queue)| >= 100_000 then ResourceExhausted else Ok)
                && (code == Queued <==> status == Ok) && (code == Exhausted <==> taken == ResourceExhausted)
                && (code == Queued || code == Exhausted || code == Rejected)
      ensures steps != [] && !G.HasPlace(old(s.gate), user) ==>
                && status == Ok && s == old(s)
                && (code == NotStarted <==> s.gate.state == G.Created || s.gate.state == G.Preheating)
                && (code == Finished <==> s.gate.state == G.Finished)
                && (code == AlreadyAdmitted <==> s.gate.state == G.Running && user in s.gate.users)
                && (code == Exhausted <==> s.gate.state == G.Running && user !in s.gate.users && |s.gate.users| == s.gate.quota)
    {
      hide CanRun, Run, Perform, Reaches, Give, Take, OrderId;
      assert OrderId(s.promotion, user) == "flash-order-" + s.promotion + "-" + user by { OrderIdText(s.promotion, user); }
      NoSteps(s);
      steps, code := [], Rejected;
      if user == "" || sku == "" || key == "" || quantity <= 0 { return InvalidArgument, Rejected, []; }
      var m := Message(user, sku, quantity, OrderId(s.promotion, user), key);
      ghost var first := s;
      var decision := G.Decide(s.gate, user);
      G.AcquireIsSound(s.gate, user);
      G.DecisionTable(s.gate, user);
      Step(first, steps, s, Enter(user, sku, quantity, key));
      steps := steps + [Enter(user, sku, quantity, key)];
      if decision != G.Accepted { return Ok, MapGateCode(decision), steps; }
      var n := |s.submitters|;
      LastLeaves(s.submitters, Submitter(m, Entered));
      LastLeaves(s.submitters, Submitter(m, Holding));
      LastLeaves(s.submitters, Submitter(m, Leaving));
      s := s.(gate := G.Acquire(s.gate, user), submitters := s.submitters + [Submitter(m, Entered)]);
      // Reserve; without stock the token goes back.
      var (taken, ledger) := Take(s.ledger, m, reserveWrites);
      Step(first, steps, s, TakeStock(n, reserveWrites));
      steps := steps + [TakeStock(n, reserveWrites)];
      if taken != Ok {
        s := AtStage(s.(ledger := ledger), n, Leaving);
        steps := ReturnLast(first, steps);
        return taken, if taken == ResourceExhausted then Exhausted else Rejected, steps;
      }
      s := AtStage(s.(ledger := ledger), n, Holding);
      status, steps := PushLast(first, steps, push, releaseWrites);
      return status, if status == Ok then Queued else Rejected, steps;
    }

    /** Queue the message of the last submitter; when it is refused, the stock and the token go back. */
    method PushLast(ghost first: State, ghost steps: seq<Event>, push: Status, releaseWrites: bool)
      returns (status: Status, ghost steps': seq<Event>)
      requires Reaches(first, steps, s) && s.submitters != [] && s.submitters[|s.submitters| - 1].stage == Holding
      modifies this`s
      ensures Reaches(first, steps', s) && steps' != []
      ensures status == if push != Ok then push else if |old(s.queue)| >= 100_000 then ResourceExhausted else Ok
      ensures var m := old(s.submitters[|s.submitters| - 1].message);
              s == old(s).(
                submitters := old(s.submitters[..|s.submitters| - 1]),
                queue := old(s.queue) + (if status == Ok then [m] else []),
                ledger := if status == Ok then old(s.ledger) else Give(old(s.ledger), m.order, releaseWrites).1,
                gate := if status == Ok then old(s.gate) else G.Rollback(old(s.gate), m.user))
    {
      hide CanRun, Run, Perform, Reaches, Give;
      var n := |s.submitters| - 1;
      var m := s.submitters[n].message;
      Step(first, steps, s, Enqueue(n, push == Ok));
      steps' := steps + [Enqueue(n, push == Ok)];
      if push == Ok && |s.queue| < QUEUE_CAPACITY {
        assert Without(s.submitters, n) == s.submitters[..n];
        s := s.(queue := s.queue + [m], submitters := Without(s.submitters, n));
        return Ok, steps';
      }
      s := AtStage(s, n, Returning);
      Step(first, steps', s, ReturnStock(n, releaseWrites));
      steps' := steps' + [ReturnStock(n, releaseWrites)];
      s := AtStage(s.(ledger := Give(s.ledger, m.order, releaseWrites).1), n, Leaving);
      steps' := ReturnLast(first, steps');
      assert old(s.queue) + [] == old(s.queue);
      return if push == Ok then ResourceExhausted else push, steps';
    }

    /** The gate's `rollback` at the end of a refused submission. */
    method ReturnLast(ghost first: State, ghost steps: seq<Event>) returns (ghost steps': seq<Event>)
      requires Reaches(first, steps, s) && s.submitters != [] && s.submitters[|s.submitters| - 1].stage == Leaving
      modifies this`s
      ensures Reaches(first, steps', s) && steps' != []
      ensures s == old(s).(gate := G.Rollback(old(s.gate), old(s.submitters[|s.submitters| - 1].message.user)),
                           submitters := old(s.submitters[..|s.submitters| - 1]))
    {
      hide CanRun, Run;
      var n := |s.submitters| - 1;
      Step(first, steps, s, ReturnToken(n));
      steps' := steps + [ReturnToken(n)];
      assert Without(s.submitters, n) == s.submitters[..n];
      s := s.(gate := G.Rollback(s.gate, s.submitters[n].message.user), submitters := s.submitters[..n]);
    }

    /** One attempt: store the order, then confirm its stock. */
    method Process(ghost first: State, ghost steps: seq<Event>, n: nat, stores: bool, confirmWrites: bool)
      returns (ok: bool, ghost steps': seq<Event>)
      requires Reaches(first, steps, s) && n == |s.workers| - 1 && s.workers[n].stage.Trying? && !s.workers[n].stage.stored
      modifies this`s, this`processed
      ensures Reaches(first, steps', s)
      ensures ok ==> s.processed == old(s.processed) + [old(s.workers[n].message)]
                     && s.workers == old(s.workers[..n]) && processed == old(processed) + 1
      ensures !ok ==> s.processed == old(s.processed) && processed == old(processed) && s.ledger == old(s.ledger)
                      && s.workers == old(s.workers)[n := old(s.workers[n]).(stage := AfterFailure(s, old(s.workers[n].stage.attempt)))]
      ensures s.gate == old(s.gate) && s.queue == old(s.queue) && s.submitters == old(s.submitters)
      ensures s.maxAttempts == old(s.maxAttempts) && s.buried == old(s.buried)
      ensures |steps'| <= |steps| + 2
      ensures ok <==> Completes(old(s.ledger), old(s.workers[n].message.order), stores, confirmWrites)
      ensures ok ==> s.ledger == Confirmation(old(s.ledger), old(s.workers[n].message.order), confirmWrites).1
    {
      hide CanRun, Run, Perform;
      var attempt, message := s.workers[n].stage.attempt, s.workers[n].message;
      Step(first, steps, s, StoreOrder(n, stores));
      steps' := steps + [StoreOrder(n, stores)];
      if !stores {
        s := AtWork(s, n, AfterFailure(s, attempt));
        return false, steps';
      }
      s := AtWork(s, n, Trying(attempt, true));
      Step(first, steps', s, Settle(n, confirmWrites));
      steps' := steps' + [Settle(n, confirmWrites)];
      var (status, ledger) := Confirmation(s.ledger, message.order, confirmWrites);
      RefusedConfirmation(s.ledger, message.order, confirmWrites);
      if status != Ok {
        s := AtWork(s.(ledger := ledger), n, AfterFailure(s, attempt));
        return false, steps';
      }
      assert Without(s.workers, n) == s.workers[..n];
      s := s.(ledger := ledger, processed := s.processed + [message], workers := Without(s.workers, n));
      processed := processed + 1;
      return true, steps';
    }

    /**
     `processOnce`: pop a message, try it up to `max_attempts` times, else bury it, release its stock and
     return its token. Whatever fails, it takes at most 2 * max_attempts + 4 steps and the worker ends empty-handed.
     */
    method ProcessOnce(stores: nat -> bool, confirmWrites: nat -> bool, buries: bool, releaseWrites: bool)
      returns (status: Status, ghost steps: seq<Event>)
      modifies this
      ensures Reaches(old(s), steps, s) && |steps| <= 2 * s.maxAttempts + 4
      ensures s.workers == old(s.workers) && s.submitters == old(s.submitters)
      ensures s.maxAttempts == 0 <==> status == FailedPrecondition
      ensures s.maxAttempts > 0 && old(s.queue) == [] <==> status == Incomplete
      ensures status == FailedPrecondition || status == Incomplete ==> s == old(s) && processed == old(processed)
      ensures status != FailedPrecondition && status != Incomplete ==> s.queue == old(s.queue)[1..]
      ensures status == Ok <==> old(s.queue) != [] && Succeeds(old(s), old(s.queue)[0].order, stores, confirmWrites, s.maxAttempts)
      ensures status == Ok ==>
                && s.processed == old(s.processed) + [old(s.queue)[0]] && processed == old(processed) + 1
                && s.gate == old(s.gate) && s.buried == old(s.buried) && deadLettered == old(deadLettered)
                && s.ledger == Confirmation(old(s.ledger), old(s.queue)[0].order, true).1
      ensures status == Internal ==>
                && s.processed == old(s.processed) && processed == old(processed)
                && s.gate == G.Rollback(old(s.gate), old(s.queue)[0].user)
                && s.ledger == Give(old(s.ledger), old(s.queue)[0].order, releaseWrites).1
                && s.buried == old(s.buried) + (if buries then [old(s.queue)[0]] else [])
                && deadLettered == old(deadLettered) + (if buries then 1 else 0)
      ensures status in {Ok, Internal, FailedPrecondition, Incomplete}
    {
      hide CanRun, Run, Perform, Reaches;
      NoSteps(s);
      steps := [];
      if s.maxAttempts == 0 { return FailedPrecondition, steps; }
      if s.queue == [] { return Incomplete, steps; }
      ghost var first, ws := s, s.workers;
      var message, n := s.queue[0], |s.workers|;
      Step(first, steps, s, Pop);
      steps := steps + [Pop];
      s := s.(queue := s.queue[1..], workers := s.workers + [Worker(message, Trying(1, false))]);
      hide Do;
      assert s.workers[..n] == ws;
      var attempt := 1;
      while attempt <= s.maxAttempts
        invariant 1 <= attempt <= s.maxAttempts + 1 && s.maxAttempts == old(s.maxAttempts)
        invariant Reaches(first, steps, s) && |steps| <= 1 + 2 * (attempt - 1)
        invariant s.workers == ws + [Worker(message, if attempt <= s.maxAttempts then Trying(attempt, false) else Burying)]
        invariant s.processed == old(s.processed) && processed == old(processed) && deadLettered == old(deadLettered)
        invariant s.ledger == old(s.ledger) && s.gate == old(s.gate) && s.queue == old(s.queue)[1..]
        invariant s.submitters == old(s.submitters) && s.buried == old(s.buried)
        invariant forall a :: 1 <= a < attempt ==> !Completes(s.ledger, message.order, stores(a), confirmWrites(a))
      {
        var ok;
        ok, steps := Process(first, steps, n, stores(attempt), confirmWrites(attempt));
        if ok {
          assert Completes(old(s.ledger), message.order, stores(attempt), confirmWrites(attempt));
          AcceptedConfirmation(old(s.ledger), message.order, confirmWrites(attempt));
          return Ok, steps;
        }
        attempt := attempt + 1;
      }
      steps := Compensate(first, steps, n, buries, releaseWrites);
      return Internal, steps;
    }

    /** Bury the message, release its stock, return its token. */
    method Compensate(ghost first: State, ghost steps: seq<Event>, n: nat, buries: bool, releaseWrites: bool)
      returns (ghost steps': seq<Event>)
      requires Reaches(first, steps, s) && n == |s.workers| - 1 && s.workers[n].stage == Burying
      modifies this`s, this`deadLettered
      ensures Reaches(first, steps', s) && |steps'| == |steps| + 3
      ensures var m := old(s.workers[n].message);
              && s == old(s).(
                   workers := old(s.workers[..n]),
                   gate := G.Rollback(old(s.gate), m.user),
                   ledger := Give(old(s.ledger), m.order, releaseWrites).1,
                   buried := old(s.buried) + if buries then [m] else [])
              && deadLettered == old(deadLettered) + if buries then 1 else 0
    {
      hide CanRun, Run, Perform;
      var m := s.workers[n].message;
      Step(first, steps, s, Bury(n, buries));
      steps' := steps + [Bury(n, buries)];
      if buries { deadLettered := deadLettered + 1; }
      assert s.buried + [] == s.buried;
      s := AtWork(s.(buried := if buries then s.buried + [m] else s.buried), n, Undoing);
      Step(first, steps', s, UndoStock(n, releaseWrites));
      steps' := steps' + [UndoStock(n, releaseWrites)];
      s := AtWork(s.(ledger := Give(s.ledger, m.order, releaseWrites).1), n, Quitting);
      Step(first, steps', s, UndoToken(n));
      steps' := steps' + [UndoToken(n)];
      assert Without(s.workers, n) == s.workers[..n];
      s := s.(gate := G.Rollback(s.gate, m.user), workers := Without(s.workers, n));
    }
  }

  /** A confirmation that is accepted is the one that gets written. */
  lemma AcceptedConfirmation(l: Ledger, op: Op, storage: bool)
    requires Confirmation(l, op, storage).0 == Ok
    ensures Confirmation(l, op, storage) == Confirmation(l, op, true)
  {}

  lemma RefusedConfirmation(l: Ledger, op: Op, storage: bool)
    ensures Confirmation(l, op, storage).0 != Ok ==> Confirmation(l, op, storage).1 == l
  {}
}
