/** What deliveries keep: the order of every queue, and events that leave only when all have answered. */
module BrokerRuns {
  import opened Broker
  import opened Text

  // ----- Order -----

  /** Strictly sorted by sequence, all below the next one. */
  predicate Sorted(q: seq<Event>, bound: nat) {
    && (forall i, j :: 0 <= i < j < |q| ==> q[i].sequence < q[j].sequence)
    && (forall i :: 0 <= i < |q| ==> q[i].sequence < bound)
  }

  predicate Ordered(s: State) {
    forall t :: t in s.queues ==> Sorted(s.queues[t], s.nextSequence)
  }

  lemma {:induction false} RemainingSorted(q: seq<Event>, ids: seq<string>, bound: nat)
    requires Sorted(q, bound)
    ensures Sorted(Remaining(q, ids), bound)
    decreases |q|
  {
    if q != [] {
      RemainingSorted(q[1..], ids, bound);
      RemainingIs(q[1..], ids);
      var rest := Remaining(q[1..], ids);
      assert forall i :: 0 <= i < |rest| ==> rest[i] in q[1..];
    }
  }

  lemma PushOrdered(s: State, e: Event)
    requires Ordered(s) && e.sequence == s.nextSequence
    ensures Ordered(Push(s, e))
  {}

  lemma {:induction false} PublishAllKeeps(s: State, es: seq<Event>)
    requires Ordered(s)
    ensures Ordered(PublishAll(s, es))
    ensures var p := PublishAll(s, es);
            && p.subscriptions == s.subscriptions && p.attempts == s.attempts && p.nextSubscription == s.nextSubscription
            && p.nextSequence >= s.nextSequence
            && forall t :: t in s.queues ==> t in p.queues && s.queues[t] <= p.queues[t]
    decreases |es|
  {
    if es != [] {
      if es[0].topic != "" { PushOrdered(s, Named(s, es[0])); }
      PublishAllKeeps(Publish(s, es[0]), es[1..]);
    }
  }

  lemma {:induction false} PushLettersKeeps(s: State, letters: seq<Event>)
    requires Ordered(s)
    ensures Ordered(PushLetters(s, letters))
    ensures var p := PushLetters(s, letters);
            p.subscriptions == s.subscriptions && p.attempts == s.attempts && p.nextSubscription == s.nextSubscription
    decreases |letters|
  {
    if letters != [] {
      var e := letters[0].(sequence := s.nextSequence);
      PushOrdered(s, e);
      hide Ordered;
      PushLettersKeeps(Push(s, e), letters[1..]);
    }
  }

  /** Letters go behind what a queue holds, with sequences not used before. */
  lemma {:induction false} LettersGoBehind(s: State, letters: seq<Event>, t: string)
    ensures var q, p := Queue(s, t), Queue(PushLetters(s, letters), t);
            q <= p && forall i :: |q| <= i < |p| ==> p[i].sequence >= s.nextSequence
    decreases |letters|
  {
    if letters != [] {
      var e := letters[0].(sequence := s.nextSequence);
      LettersGoBehind(Push(s, e), letters[1..], t);
    }
  }

  lemma DeliverOrdered(s: State, topic: string, maxEvents: nat, ok: Answers, arriving: seq<Event>)
    requires Ordered(s)
    ensures Ordered(Deliver(s, topic, maxEvents, ok, arriving))
  {
    hide AllEvents, PublishAll, PushLetters;
    PublishAllKeeps(s, arriving);
    var subs := SubscriptionsOf(s, topic);
    if topic in s.queues && subs != [] {
      var (w, ids) := AllEvents(Work(s.attempts, []), topic, subs, Taken(s, topic, maxEvents), ok);
      var now := PublishAll(s, arriving).(attempts := w.attempts);
      RemainingSorted(Queue(now, topic), ids, now.nextSequence);
      PushLettersKeeps(now.(queues := now.queues[topic := Remaining(Queue(now, topic), ids)]), w.letters);
    }
  }

  // ----- What a delivery leaves in every queue -----

  /** The letters addressed to a topic, numbered from `n` on among all letters. */
  function Addressed(letters: seq<Event>, n: nat, t: string): seq<Event> {
    if letters == [] then []
    else (if letters[0].topic == t then [letters[0].(sequence := n)] else []) + Addressed(letters[1..], n + 1, t)
  }

  lemma {:induction false} LettersAreQueued(s: State, letters: seq<Event>, t: string)
    ensures Queue(PushLetters(s, letters), t) == Queue(s, t) + Addressed(letters, s.nextSequence, t)
    decreases |letters|
  {
    if letters != [] {
      var e := letters[0].(sequence := s.nextSequence);
      LettersAreQueued(Push(s, e), letters[1..], t);
    }
  }

  /**
   With unique ids: the topic keeps, in order, every event that was not taken or that a subscription will try
   again; every dead-letter topic gets, behind what it holds, exactly one letter for each taken event and each
   subscription that gives up on it.
   */
  lemma DeliverLeaves(s: State, topic: string, maxEvents: nat, ok: Answers, arriving: seq<Event>, t: string)
    requires Ordered(s) && topic in s.queues && SubscriptionsOf(s, topic) != []
    requires DistinctSubscriptions(SubscriptionsOf(s, topic)) && DistinctIds(Queue(s, topic))
    ensures var subs, taken := SubscriptionsOf(s, topic), Taken(s, topic, maxEvents);
            var now, ids := PublishAll(s, arriving), AllEvents(Work(s.attempts, []), topic, subs, taken, ok).1;
            Queue(Deliver(s, topic, maxEvents, ok, arriving), t)
            == (if t == topic then Remaining(Queue(now, t), ids) else Queue(now, t))
               + Addressed(BatchLetters(s.attempts, topic, subs, taken, ok), now.nextSequence, t)
  {
    hide AllEvents, PublishAll, PushLetters, BatchLetters, Remaining;
    PublishAllKeeps(s, arriving);
    var subs, taken := SubscriptionsOf(s, topic), Taken(s, topic, maxEvents);
    TakenIsDistinct(s, topic, maxEvents);
    BatchLettersAre(Work(s.attempts, []), topic, subs, taken, ok);
    var (w, ids) := AllEvents(Work(s.attempts, []), topic, subs, taken, ok);
    assert w.letters == BatchLetters(s.attempts, topic, subs, taken, ok);
    var now := PublishAll(s, arriving).(attempts := w.attempts);
    var rest := now.(queues := now.queues[topic := Remaining(Queue(now, topic), ids)]);
    LettersAreQueued(rest, w.letters, t);
    if ids == [] && w.letters == [] { NothingLeaves(Queue(now, topic)); }
  }

  lemma {:induction false} NothingLeaves(q: seq<Event>)
    ensures Remaining(q, []) == q
    decreases |q|
  {
    if q != [] { NothingLeaves(q[1..]); }
  }

  lemma TakenIsDistinct(s: State, topic: string, maxEvents: nat)
    requires DistinctIds(Queue(s, topic))
    ensures DistinctIds(Taken(s, topic, maxEvents))
  {}

  // ----- Who leaves -----

  /** The dead-letter topic holds an event with the key and payload of this one, under the id of its dead letter. */
  predicate DeadLettered(s: State, sub: Subscription, e: Event, n: nat) {
    var q := Queue(s, sub.deadLetterTopic);
    exists i :: 0 <= i < |q| && q[i].key == e.key && q[i].payload == e.payload && q[i].topic == sub.deadLetterTopic
                && q[i].id == sub.deadLetterTopic + "-" + e.id + "-" + Digits(n)
  }

  /**
   With unique ids, an event leaves its topic exactly when it was taken in this call and every subscription
   with a handler answered well or gave up on it; and for each that gave up its dead letter is queued.
   */
  lemma LeavesIff(s: State, topic: string, maxEvents: nat, ok: Answers, arriving: seq<Event>, e: Event)
    requires Ordered(s) && topic in s.queues && DistinctSubscriptions(SubscriptionsOf(s, topic))
    requires DistinctIds(Queue(PublishAll(s, arriving), topic))
    requires e in Queue(PublishAll(s, arriving), topic)
    ensures var s', subs := Deliver(s, topic, maxEvents, ok, arriving), SubscriptionsOf(s, topic);
            && (e in Queue(s', topic)
                <==> subs == [] || e !in Taken(s, topic, maxEvents) || Stays(s.attempts, topic, subs, e, ok))
            && (e in Taken(s, topic, maxEvents) ==>
                  forall j :: 0 <= j < |subs| && GivesUp(s.attempts, topic, subs[j], e, ok) ==>
                    DeadLettered(s', subs[j], e, Count(s.attempts, Key(topic, subs[j].id, e.id)) + 1))
  {
    hide PublishAll, Stays, Key, Deliver, DeadLettered;
    LeavesByAnswers(s, topic, maxEvents, ok, arriving, e);
    QueueIsPrefix(s, topic, arriving);
    var subs := SubscriptionsOf(s, topic);
    forall j | e in Taken(s, topic, maxEvents) && 0 <= j < |subs| && GivesUp(s.attempts, topic, subs[j], e, ok)
      ensures DeadLettered(Deliver(s, topic, maxEvents, ok, arriving), subs[j], e, Count(s.attempts, Key(topic, subs[j].id, e.id)) + 1)
    {
      LetterIsQueued(s, topic, maxEvents, ok, arriving, e, j);
    }
  }

  lemma QueueIsPrefix(s: State, topic: string, arriving: seq<Event>)
    requires Ordered(s) && DistinctIds(Queue(PublishAll(s, arriving), topic))
    ensures DistinctIds(Queue(s, topic))
  {
    hide PublishAll;
    PublishAllKeeps(s, arriving);
  }

  /** A subscription that gives up on a taken event leaves its dead letter. */
  lemma LetterIsQueued(s: State, topic: string, maxEvents: nat, ok: Answers, arriving: seq<Event>, e: Event, j: nat)
    requires Ordered(s) && topic in s.queues && DistinctIds(Queue(s, topic)) && DistinctSubscriptions(SubscriptionsOf(s, topic))
    requires e in Taken(s, topic, maxEvents) && j < |SubscriptionsOf(s, topic)|
    requires GivesUp(s.attempts, topic, SubscriptionsOf(s, topic)[j], e, ok)
    ensures var sub := SubscriptionsOf(s, topic)[j];
            DeadLettered(Deliver(s, topic, maxEvents, ok, arriving), sub, e, Count(s.attempts, Key(topic, sub.id, e.id)) + 1)
  {
    hide AllEvents, PublishAll, Remaining, Key, Letter, Deliver, Addressed, BatchLetters, GivesUp, Taken;
    var subs := SubscriptionsOf(s, topic);
    var c := Count(s.attempts, Key(topic, subs[j].id, e.id)) + 1;
    var letter, letters := Letter(subs[j], e, c), BatchLetters(s.attempts, topic, subs, Taken(s, topic, maxEvents), ok);
    BatchHasLetter(s.attempts, topic, subs, Taken(s, topic, maxEvents), ok, e, j);
    LetterTopic(subs[j], e, c);
    DeliverLeaves(s, topic, maxEvents, ok, arriving, letter.topic);
    AddressedHas(letters, PublishAll(s, arriving).nextSequence, letter);
    var tail := Addressed(letters, PublishAll(s, arriving).nextSequence, letter.topic);
    var i :| 0 <= i < |tail| && tail[i] == letter.(sequence := tail[i].sequence);
    var q := Queue(Deliver(s, topic, maxEvents, ok, arriving), letter.topic);
    assert q[|q| - |tail| + i] == tail[i];
  }

  lemma LetterTopic(sub: Subscription, e: Event, n: nat)
    ensures Letter(sub, e, n).topic == sub.deadLetterTopic && IsLetter(Letter(sub, e, n), sub, e, n)
  {}

  lemma {:induction false} AddressedHas(letters: seq<Event>, n: nat, letter: Event)
    requires letter in letters
    ensures exists i :: 0 <= i < |Addressed(letters, n, letter.topic)|
                        && Addressed(letters, n, letter.topic)[i] == letter.(sequence := Addressed(letters, n, letter.topic)[i].sequence)
    decreases |letters|
  {
    var all := Addressed(letters, n, letter.topic);
    if letters[0] == letter {
      assert all[0] == letter.(sequence := n);
    } else {
      AddressedHas(letters[1..], n + 1, letter);
      var rest := Addressed(letters[1..], n + 1, letter.topic);
      var i :| 0 <= i < |rest| && rest[i] == letter.(sequence := rest[i].sequence);
      assert all[|all| - |rest| + i] == rest[i];
    }
  }

  lemma {:induction false} EventHasLetter(a: Attempts, topic: string, subs: seq<Subscription>, e: Event, ok: Answers, j: nat)
    requires j < |subs| && GivesUp(a, topic, subs[j], e, ok)
    ensures Letter(subs[j], e, Count(a, Key(topic, subs[j].id, e.id)) + 1) in EventLetters(a, topic, subs, e, ok)
    decreases |subs|
  {
    hide Key, Letter;
    if j > 0 { EventHasLetter(a, topic, subs[1..], e, ok, j - 1); }
  }

  lemma {:induction false} BatchHasLetter(a: Attempts, topic: string, subs: seq<Subscription>, es: seq<Event>, ok: Answers, e: Event, j: nat)
    requires e in es && j < |subs| && GivesUp(a, topic, subs[j], e, ok)
    ensures Letter(subs[j], e, Count(a, Key(topic, subs[j].id, e.id)) + 1) in BatchLetters(a, topic, subs, es, ok)
    decreases |es|
  {
    hide Key, Letter, EventLetters;
    if es[0] == e {
      EventHasLetter(a, topic, subs, e, ok, j);
    } else {
      BatchHasLetter(a, topic, subs, es[1..], ok, e, j);
    }
  }

  lemma LeavesByAnswers(s: State, topic: string, maxEvents: nat, ok: Answers, arriving: seq<Event>, e: Event)
    requires Ordered(s) && topic in s.queues && DistinctSubscriptions(SubscriptionsOf(s, topic))
    requires DistinctIds(Queue(PublishAll(s, arriving), topic))
    requires e in Queue(PublishAll(s, arriving), topic)
    ensures e in Queue(Deliver(s, topic, maxEvents, ok, arriving), topic)
            <==> SubscriptionsOf(s, topic) == [] || e !in Taken(s, topic, maxEvents)
                 || Stays(s.attempts, topic, SubscriptionsOf(s, topic), e, ok)
  {
    hide AllEvents, PublishAll, PushLetters, Stays, Remaining;
    PublishAllKeeps(s, arriving);
    var subs, taken := SubscriptionsOf(s, topic), Taken(s, topic, maxEvents);
    if subs != [] {
      var (w, ids) := AllEvents(Work(s.attempts, []), topic, subs, taken, ok);
      var now := PublishAll(s, arriving).(attempts := w.attempts);
      var q := Queue(now, topic);
      TakenIsPrefix(s, topic, maxEvents, q);
      LeavesById(Work(s.attempts, []), topic, subs, taken, ok, q, e);
      StaysIfRemaining(now, topic, ids, w.letters, e);
    }
  }

  lemma StaysIfRemaining(now: State, topic: string, ids: seq<string>, letters: seq<Event>, e: Event)
    requires Ordered(now) && topic in now.queues && e in now.queues[topic]
    ensures e in Queue(PushLetters(now.(queues := now.queues[topic := Remaining(now.queues[topic], ids)]), letters), topic)
            <==> e.id !in ids
  {
    hide PushLetters, Remaining;
    var rest := now.(queues := now.queues[topic := Remaining(now.queues[topic], ids)]);
    var q, p := Queue(rest, topic), Queue(PushLetters(rest, letters), topic);
    RemainingIs(now.queues[topic], ids);
    LettersGoBehind(rest, letters, topic);
    assert e.sequence < now.nextSequence;
    assert p == q + p[|q|..];
    assert forall x :: x in p[|q|..] ==> x.sequence >= now.nextSequence;
  }

  lemma TakenIsPrefix(s: State, topic: string, maxEvents: nat, q: seq<Event>)
    requires topic in s.queues && s.queues[topic] <= q
    ensures Taken(s, topic, maxEvents) <= q
  {}

  lemma LeavesById(w: Work, topic: string, subs: seq<Subscription>, taken: seq<Event>, ok: Answers, q: seq<Event>, e: Event)
    requires DistinctSubscriptions(subs) && DistinctIds(q) && taken <= q && e in q
    ensures e.id in AllEvents(w, topic, subs, taken, ok).1 <==> e in taken && !Stays(w.attempts, topic, subs, e, ok)
  {
    hide AllEvents, Stays;
    var k :| 0 <= k < |q| && q[k] == e;
    assert forall i :: 0 <= i < |taken| ==> taken[i] == q[i];
    assert DistinctIds(taken);
    if k < |taken| {
      assert taken[k] == e;
      BatchDecided(w, topic, subs, taken, ok, k);
    } else {
      LeavingIds(w, topic, subs, taken, ok);
      assert forall i :: 0 <= i < |taken| ==> taken[i].id != e.id;
    }
  }

  // ----- Events that share an id -----

  function Always(subscription: nat, e: Event): bool {
    true
  }

  /** In every delivery from this state, whatever is taken and answered, only events leave that were taken and settled. */
  ghost predicate OnlySettledLeave(s: State, topic: string) {
    forall maxEvents, ok, e :: e in Queue(s, topic) && e !in Queue(Deliver(s, topic, maxEvents, ok, []), topic) ==>
      e in Taken(s, topic, maxEvents) && !Stays(s.attempts, topic, SubscriptionsOf(s, topic), e, ok)
  }

  /** Only settled events leave a topic with subscriptions exactly when the ids of its events are distinct. */
  lemma OnlySettledLeaveIff(s: State, topic: string)
    requires Ordered(s) && topic in s.queues
    requires SubscriptionsOf(s, topic) != [] && DistinctSubscriptions(SubscriptionsOf(s, topic))
    ensures OnlySettledLeave(s, topic) <==> DistinctIds(Queue(s, topic))
  {
    hide Stays, Deliver;
    var q := Queue(s, topic);
    if DistinctIds(q) {
      forall maxEvents, ok, e | e in q && e !in Queue(Deliver(s, topic, maxEvents, ok, []), topic)
        ensures e in Taken(s, topic, maxEvents) && !Stays(s.attempts, topic, SubscriptionsOf(s, topic), e, ok)
      {
        LeavesByAnswers(s, topic, maxEvents, ok, [], e);
      }
    } else {
      var i, j :| 0 <= i < j < |q| && q[i].id == q[j].id;
      SharedIdIsLost(s, topic, i, j);
      assert q[j] in q && q[j] !in Queue(Deliver(s, topic, i + 1, Always, []), topic);
    }
  }

  /** Taking the first of two events with one id takes the second out, unhandled. */
  lemma SharedIdIsLost(s: State, topic: string, i: nat, j: nat)
    requires Ordered(s) && topic in s.queues && SubscriptionsOf(s, topic) != []
    requires i < j < |s.queues[topic]| && s.queues[topic][i].id == s.queues[topic][j].id
    ensures var q := s.queues[topic];
            q[j] !in Taken(s, topic, i + 1) && q[j] !in Queue(Deliver(s, topic, i + 1, Always, []), topic)
  {
    hide AllEvents, PushLetters, Remaining;
    var q, subs, taken := s.queues[topic], SubscriptionsOf(s, topic), Taken(s, topic, i + 1);
    assert taken == q[..i + 1];
    var w := Work(s.attempts, []);
    AllLeave(w, topic, subs, taken);
    var ids := AllEvents(w, topic, subs, taken, Always).1;
    assert taken[i].id in ids;
    var now := s.(attempts := AllEvents(w, topic, subs, taken, Always).0.attempts);
    StaysIfRemaining(now, topic, ids, AllEvents(w, topic, subs, taken, Always).0.letters, q[j]);
  }

  lemma {:induction false} AllLeave(w: Work, topic: string, subs: seq<Subscription>, es: seq<Event>)
    ensures forall i :: 0 <= i < |es| ==> es[i].id in AllEvents(w, topic, subs, es, Always).1
    decreases |es|
  {
    if es != [] {
      EventLeaves(w, topic, subs, es[0]);
      AllLeave(OneEvent(w, topic, subs, es[0], Always).0, topic, subs, es[1..]);
    }
  }

  lemma {:induction false} EventLeaves(w: Work, topic: string, subs: seq<Subscription>, e: Event)
    ensures OneEvent(w, topic, subs, e, Always).1
    decreases |subs|
  {
    if subs != [] { EventLeaves(OneSubscription(w, topic, subs[0], e, Always).0, topic, subs[1..], e); }
  }

  // ----- Runs -----

  datatype Act =
    | DoPublish(event: Event)
    | DoSubscribe(topic: string, handled: bool, maxAttempts: nat, deadLetterTopic: string)
    | DoDeliver(topic: string, maxEvents: nat, ok: Answers, arriving: seq<Event>)

  function Perform(s: State, a: Act): State {
    match a
    case DoPublish(e) => Publish(s, e)
    case DoSubscribe(topic, handled, maxAttempts, d) => Subscribe(s, topic, handled, maxAttempts, d)
    case DoDeliver(topic, maxEvents, ok, arriving) => Deliver(s, topic, maxEvents, ok, arriving)
  }

  function PerformAll(s: State, acts: seq<Act>): State
    decreases |acts|
  {
    if acts == [] then s else PerformAll(Perform(s, acts[0]), acts[1..])
  }

  const EMPTY: State := State(map[], map[], map[], 1, 1)

  lemma StepKeepsOrder(s: State, a: Act)
    requires Ordered(s)
    ensures Ordered(Perform(s, a))
  {
    hide Deliver;
    match a
    case DoPublish(e) => if e.topic != "" { PushOrdered(s, Named(s, e)); }
    case DoSubscribe(_, _, _, _) =>
    case DoDeliver(topic, maxEvents, ok, arriving) => DeliverOrdered(s, topic, maxEvents, ok, arriving);
  }

  /** In every run each topic's queue stays strictly sorted by sequence. */
  lemma {:induction false} EveryRunIsOrdered(s: State, acts: seq<Act>)
    requires Ordered(s)
    ensures Ordered(PerformAll(s, acts))
    decreases |acts|
  {
    hide Perform, Ordered;
    if acts != [] {
      StepKeepsOrder(s, acts[0]);
      EveryRunIsOrdered(Perform(s, acts[0]), acts[1..]);
    }
  }

  // ----- What deliveries do not touch -----

  lemma {:induction false} PublishKeepsRest(s: State, es: seq<Event>)
    ensures var p := PublishAll(s, es);
            p.subscriptions == s.subscriptions && p.attempts == s.attempts && p.nextSubscription == s.nextSubscription
    decreases |es|
  {
    if es != [] { PublishKeepsRest(Publish(s, es[0]), es[1..]); }
  }

  lemma {:induction false} LettersKeepRest(s: State, letters: seq<Event>)
    ensures var p := PushLetters(s, letters);
            p.subscriptions == s.subscriptions && p.attempts == s.attempts && p.nextSubscription == s.nextSubscription
    decreases |letters|
  {
    if letters != [] { LettersKeepRest(Push(s, letters[0].(sequence := s.nextSequence)), letters[1..]); }
  }

  lemma DeliverKeepsRest(s: State, topic: string, maxEvents: nat, ok: Answers, arriving: seq<Event>)
    ensures var s' := Deliver(s, topic, maxEvents, ok, arriving);
            && s'.subscriptions == s.subscriptions && s'.nextSubscription == s.nextSubscription
            && s'.attempts == (if topic !in s.queues || SubscriptionsOf(s, topic) == [] then s.attempts
                               else AllEvents(Work(s.attempts, []), topic, SubscriptionsOf(s, topic), Taken(s, topic, maxEvents), ok).0.attempts)
  {
    hide AllEvents, PublishAll, PushLetters, Remaining;
    PublishKeepsRest(s, arriving);
    var subs := SubscriptionsOf(s, topic);
    if topic in s.queues && subs != [] {
      var (w, ids) := AllEvents(Work(s.attempts, []), topic, subs, Taken(s, topic, maxEvents), ok);
      var now := PublishAll(s, arriving).(attempts := w.attempts);
      LettersKeepRest(now.(queues := now.queues[topic := Remaining(Queue(now, topic), ids)]), w.letters);
    }
  }

  // ----- A subscriber that always fails -----

  /** One delivery of a topic. */
  datatype Round = Round(maxEvents: nat, ok: Answers, arriving: seq<Event>)

  function AfterRound(s: State, topic: string, r: Round): State {
    Deliver(s, topic, r.maxEvents, r.ok, r.arriving)
  }

  function AfterRounds(s: State, topic: string, rs: seq<Round>): State
    decreases |rs|
  {
    if rs == [] then s else AfterRounds(AfterRound(s, topic, rs[0]), topic, rs[1..])
  }

  /** How often the event was taken. */
  function TimesTaken(s: State, topic: string, rs: seq<Round>, e: Event): nat
    decreases |rs|
  {
    if rs == [] then 0
    else (if e in Taken(s, topic, rs[0].maxEvents) then 1 else 0) + TimesTaken(AfterRound(s, topic, rs[0]), topic, rs[1..], e)
  }

  /** How many dead letters of the last attempt at the event one delivery, or several, made. */
  function LettersIn(s: State, topic: string, r: Round, sub: Subscription, e: Event): nat {
    multiset(BatchLetters(s.attempts, topic, [sub], Taken(s, topic, r.maxEvents), r.ok))[Letter(sub, e, sub.maxAttempts)]
  }

  function LettersOver(s: State, topic: string, rs: seq<Round>, sub: Subscription, e: Event): nat
    decreases |rs|
  {
    if rs == [] then 0
    else LettersIn(s, topic, rs[0], sub, e) + LettersOver(AfterRound(s, topic, rs[0]), topic, rs[1..], sub, e)
  }

  /** The ids of the topic are distinct when a delivery ends, nobody reuses the event's id, and its handler fails. */
  ghost predicate GoodRound(s: State, topic: string, r: Round, sub: Subscription, e: Event) {
    var q := Queue(PublishAll(s, r.arriving), topic);
    DistinctIds(q) && (forall i :: 0 <= i < |q| && q[i].id == e.id ==> q[i] == e) && !r.ok(sub.id, e)
  }

  ghost predicate GoodRounds(s: State, topic: string, rs: seq<Round>, sub: Subscription, e: Event)
    decreases |rs|
  {
    rs == [] || (GoodRound(s, topic, rs[0], sub, e) && GoodRounds(AfterRound(s, topic, rs[0]), topic, rs[1..], sub, e))
  }

  /** The topic has one subscription, with a handler. */
  predicate Lone(s: State, topic: string, sub: Subscription) {
    topic in s.queues && SubscriptionsOf(s, topic) == [sub] && sub.handled && sub.maxAttempts >= 1
  }

  lemma {:induction false} LoneLetters(a: Attempts, topic: string, sub: Subscription, es: seq<Event>, ok: Answers, e: Event, n: nat)
    requires DistinctIds(es) && forall i :: 0 <= i < |es| && es[i].id == e.id ==> es[i] == e
    ensures multiset(BatchLetters(a, topic, [sub], es, ok))[Letter(sub, e, n)]
            == if e in es && GivesUp(a, topic, sub, e, ok) && Count(a, Key(topic, sub.id, e.id)) + 1 == n then 1 else 0
    decreases |es|
  {
    hide Key, GivesUp, Letter, EventLetters;
    if es != [] {
      LoneLetters(a, topic, sub, es[1..], ok, e, n);
      LoneEventLetters(a, topic, sub, es[0], ok, e, n);
      forall i | 0 <= i < |es[1..]| ensures es[1..][i] != es[0] { assert es[1..][i] == es[i + 1]; }
      assert e in es <==> e == es[0] || e in es[1..];
      assert es[0] !in es[1..];
    }
  }

  lemma LoneEventLetters(a: Attempts, topic: string, sub: Subscription, f: Event, ok: Answers, e: Event, n: nat)
    requires f.id == e.id ==> f == e
    ensures multiset(EventLetters(a, topic, [sub], f, ok))[Letter(sub, e, n)]
            == if f == e && GivesUp(a, topic, sub, e, ok) && Count(a, Key(topic, sub.id, e.id)) + 1 == n then 1 else 0
  {
    hide Key, GivesUp;
    var c := Count(a, Key(topic, sub.id, f.id)) + 1;
    assert [sub][1..] == [];
    assert EventLetters(a, topic, [sub], f, ok) == if GivesUp(a, topic, sub, f, ok) then [Letter(sub, f, c)] else [];
    LettersShareIdIff(sub, f, c, sub, e, n);
  }

  /** What one delivery of a topic with a lone subscription that fails does to one event of it. */
  lemma FailedRound(s: State, topic: string, r: Round, sub: Subscription, e: Event)
    requires Ordered(s) && Lone(s, topic, sub) && GoodRound(s, topic, r, sub, e)
    ensures var s', k, taken := AfterRound(s, topic, r), Key(topic, sub.id, e.id), e in Taken(s, topic, r.maxEvents);
            var n := Count(s.attempts, k) + 1;
            && Lone(s', topic, sub)
            && Count(s'.attempts, k) == (if !taken then n - 1 else if n < sub.maxAttempts then n else 0)
            && LettersIn(s, topic, r, sub, e) == (if taken && n == sub.maxAttempts then 1 else 0)
            && (e in s.queues[topic] ==> (e in s'.queues[topic] <==> !taken || n < sub.maxAttempts))
  {
    hide AllEvents, PublishAll, Deliver, Key, Letter, BatchLetters;
    var es := Taken(s, topic, r.maxEvents);
    PublishAllKeeps(s, r.arriving);
    TakenIsPrefix(s, topic, r.maxEvents, Queue(PublishAll(s, r.arriving), topic));
    PrefixIsGood(es, Queue(PublishAll(s, r.arriving), topic), e);
    LoneLetters(s.attempts, topic, sub, es, r.ok, e, sub.maxAttempts);
    DeliverKeepsRest(s, topic, r.maxEvents, r.ok, r.arriving);
    BatchCounts(Work(s.attempts, []), topic, [sub], es, r.ok, e, 0);
    TopicStays(s, topic, r);
    if e in s.queues[topic] {
      LeavesByAnswers(s, topic, r.maxEvents, r.ok, r.arriving, e);
      LoneStays(s.attempts, topic, sub, e, r.ok);
    }
  }

  lemma PrefixIsGood(es: seq<Event>, q: seq<Event>, e: Event)
    requires es <= q && DistinctIds(q) && forall i :: 0 <= i < |q| && q[i].id == e.id ==> q[i] == e
    ensures DistinctIds(es) && forall i :: 0 <= i < |es| && es[i].id == e.id ==> es[i] == e
  {
    assert forall i :: 0 <= i < |es| ==> es[i] == q[i];
  }

  lemma LoneStays(a: Attempts, topic: string, sub: Subscription, e: Event, ok: Answers)
    ensures Stays(a, topic, [sub], e, ok) <==> Retries(a, topic, sub, e, ok)
  {
    hide Retries;
    if Retries(a, topic, sub, e, ok) { assert [sub][0] == sub; }
  }

  lemma TopicStays(s: State, topic: string, r: Round)
    requires Ordered(s) && topic in s.queues
    ensures topic in AfterRound(s, topic, r).queues
  {
    hide AllEvents, PublishAll, Remaining;
    PublishAllKeeps(s, r.arriving);
    var subs := SubscriptionsOf(s, topic);
    if subs != [] {
      var (w, ids) := AllEvents(Work(s.attempts, []), topic, subs, Taken(s, topic, r.maxEvents), r.ok);
      var now := PublishAll(s, r.arriving).(attempts := w.attempts);
      LettersKeepTopics(now.(queues := now.queues[topic := Remaining(Queue(now, topic), ids)]), w.letters, topic);
    }
  }

  lemma {:induction false} LettersKeepTopics(s: State, letters: seq<Event>, t: string)
    requires t in s.queues
    ensures t in PushLetters(s, letters).queues
    decreases |letters|
  {
    if letters != [] { LettersKeepTopics(Push(s, letters[0].(sequence := s.nextSequence)), letters[1..], t); }
  }

  lemma {:induction false} PublishAddsNew(s: State, es: seq<Event>, t: string, x: Event)
    requires x in Queue(PublishAll(s, es), t)
    ensures x in Queue(s, t) || x.sequence >= s.nextSequence
    decreases |es|
  {
    if es != [] { PublishAddsNew(Publish(s, es[0]), es[1..], t, x); }
  }

  lemma {:induction false} SequenceGrows(s: State, letters: seq<Event>)
    ensures PushLetters(s, letters).nextSequence == s.nextSequence + |letters|
    decreases |letters|
  {
    if letters != [] { SequenceGrows(Push(s, letters[0].(sequence := s.nextSequence)), letters[1..]); }
  }

  lemma RoundOrdered(s: State, topic: string, r: Round)
    requires Ordered(s)
    ensures Ordered(AfterRound(s, topic, r)) && AfterRound(s, topic, r).nextSequence >= s.nextSequence
  {
    DeliverOrdered(s, topic, r.maxEvents, r.ok, r.arriving);
    PublishAllKeeps(s, r.arriving);
    hide AllEvents, PublishAll, PushLetters, Remaining;
    var subs := SubscriptionsOf(s, topic);
    if topic in s.queues && subs != [] {
      var (w, ids) := AllEvents(Work(s.attempts, []), topic, subs, Taken(s, topic, r.maxEvents), r.ok);
      var now := PublishAll(s, r.arriving).(attempts := w.attempts);
      SequenceGrows(now.(queues := now.queues[topic := Remaining(Queue(now, topic), ids)]), w.letters);
    }
  }

  /** An event that has left does not come back. */
  lemma GoneStays(s: State, topic: string, r: Round, sub: Subscription, e: Event)
    requires Ordered(s) && Lone(s, topic, sub) && DistinctIds(Queue(s, topic))
    requires e !in s.queues[topic] && e.sequence < s.nextSequence
    ensures e !in Queue(AfterRound(s, topic, r), topic)
  {
    PublishAllKeeps(s, r.arriving);
    DeliverLeaves(s, topic, r.maxEvents, r.ok, r.arriving, topic);
    hide AllEvents, PublishAll, Deliver, BatchLetters, Remaining, Addressed;
    var now := PublishAll(s, r.arriving);
    var ids := AllEvents(Work(s.attempts, []), topic, [sub], Taken(s, topic, r.maxEvents), r.ok).1;
    RemainingIs(Queue(now, topic), ids);
    if e in Queue(now, topic) { PublishAddsNew(s, r.arriving, topic, e); }
    AddressedIsNew(BatchLetters(s.attempts, topic, [sub], Taken(s, topic, r.maxEvents), r.ok), now.nextSequence, topic);
  }

  lemma {:induction false} AddressedIsNew(letters: seq<Event>, n: nat, t: string)
    ensures forall x :: x in Addressed(letters, n, t) ==> x.sequence >= n
    decreases |letters|
  {
    if letters != [] { AddressedIsNew(letters[1..], n + 1, t); }
  }

  lemma {:induction false} GoneRounds(s: State, topic: string, rs: seq<Round>, sub: Subscription, e: Event)
    requires Ordered(s) && Lone(s, topic, sub) && GoodRounds(s, topic, rs, sub, e)
    requires e !in s.queues[topic] && e.sequence < s.nextSequence && Count(s.attempts, Key(topic, sub.id, e.id)) == 0
    ensures var f := AfterRounds(s, topic, rs);
            && Lone(f, topic, sub) && e !in f.queues[topic] && Count(f.attempts, Key(topic, sub.id, e.id)) == 0
            && TimesTaken(s, topic, rs, e) == 0 && LettersOver(s, topic, rs, sub, e) == 0
    decreases |rs|
  {
    hide AfterRound, Key, Letter, LettersIn;
    if rs != [] {
      TakenIsPrefix(s, topic, rs[0].maxEvents, s.queues[topic]);
      QueueIsPrefix(s, topic, rs[0].arriving);
      FailedRound(s, topic, rs[0], sub, e);
      GoneStays(s, topic, rs[0], sub, e);
      RoundOrdered(s, topic, rs[0]);
      GoneRounds(AfterRound(s, topic, rs[0]), topic, rs[1..], sub, e);
    }
  }

  /**
   A lone subscription that always fails on an event, whatever else the topic holds, however many events each delivery
   takes and whatever arrives: the event stays, with the number of its deliveries counted and no dead letter, until it was
   taken max_attempts times; then it is gone, its counter forgotten, and exactly one dead letter was made of it.
   */
  lemma {:induction false} AlwaysFailing(s: State, topic: string, rs: seq<Round>, sub: Subscription, e: Event)
    requires Ordered(s) && Lone(s, topic, sub) && GoodRounds(s, topic, rs, sub, e)
    requires e in s.queues[topic] && Count(s.attempts, Key(topic, sub.id, e.id)) < sub.maxAttempts
    ensures var f := AfterRounds(s, topic, rs);
            var n := Count(s.attempts, Key(topic, sub.id, e.id)) + TimesTaken(s, topic, rs, e);
            && Lone(f, topic, sub) && n <= sub.maxAttempts
            && (e in f.queues[topic] <==> n < sub.maxAttempts)
            && Count(f.attempts, Key(topic, sub.id, e.id)) == (if n < sub.maxAttempts then n else 0)
            && LettersOver(s, topic, rs, sub, e) == (if n < sub.maxAttempts then 0 else 1)
    decreases |rs|
  {
    hide AfterRound, Key, Letter, LettersIn, Taken;
    if rs != [] {
      FailedRound(s, topic, rs[0], sub, e);
      RoundOrdered(s, topic, rs[0]);
      var s' := AfterRound(s, topic, rs[0]);
      if e in s'.queues[topic] {
        AlwaysFailing(s', topic, rs[1..], sub, e);
      } else {
        GoneRounds(s', topic, rs[1..], sub, e);
      }
    }
  }
}
