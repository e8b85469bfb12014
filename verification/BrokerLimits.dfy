/** The counters of failed attempts in every run of the broker, and when they stay below the limits. */
module BrokerLimits {
  import opened Text
  import opened Broker
  import opened BrokerRuns

  // ----- Whose counter it is -----

  /** The counter is that of a handler of the topic for some event, and is below its limit. */
  ghost predicate OwnedBy(a: Attempts, t: string, subs: seq<Subscription>, k: string) {
    exists j, event :: 0 <= j < |subs| && Counts(a, t, subs[j], event, k)
  }

  ghost predicate Counts(a: Attempts, t: string, sub: Subscription, event: string, k: string) {
    sub.handled && event != "" && k == Key(t, sub.id, event) && Count(a, k) < sub.maxAttempts
  }

  ghost predicate Owned(s: State, k: string) {
    exists t :: t != "" && OwnedBy(s.attempts, t, SubscriptionsOf(s, t), k)
  }

  predicate AllNamed(es: seq<Event>) {
    forall i :: 0 <= i < |es| ==> es[i].id != ""
  }

  predicate AllAddressed(letters: seq<Event>) {
    forall i :: 0 <= i < |letters| ==> letters[i].id != "" && letters[i].topic != ""
  }

  predicate NamedQueues(s: State) {
    forall t :: t in s.queues ==> t != "" && AllNamed(s.queues[t])
  }

  predicate Fine(sub: Subscription, next: nat) {
    sub.id < next && sub.maxAttempts >= 1 && sub.deadLetterTopic != ""
  }

  ghost predicate Subscribed(s: State) {
    && (forall t :: DistinctSubscriptions(SubscriptionsOf(s, t)))
    && (forall t, j :: 0 <= j < |SubscriptionsOf(s, t)| ==> Fine(SubscriptionsOf(s, t)[j], s.nextSubscription))
  }

  /** Every stored counter is that of some handler, below its limit; subscriptions of a topic have different ids. */
  ghost predicate Inv(s: State) {
    (forall k :: k in s.attempts ==> Owned(s, k)) && NamedQueues(s) && Subscribed(s)
  }

  // ----- Names -----

  lemma PushNamed(s: State, e: Event)
    requires NamedQueues(s) && e.id != "" && e.topic != ""
    ensures NamedQueues(Push(s, e))
  {}

  lemma {:induction false} PublishNamed(s: State, es: seq<Event>)
    requires NamedQueues(s)
    ensures NamedQueues(PublishAll(s, es))
    decreases |es|
  {
    hide Digits;
    if es != [] {
      if es[0].topic != "" { PushNamed(s, Named(s, es[0])); }
      PublishNamed(Publish(s, es[0]), es[1..]);
    }
  }

  lemma {:induction false} LettersNamed(s: State, letters: seq<Event>)
    requires NamedQueues(s) && AllAddressed(letters)
    ensures NamedQueues(PushLetters(s, letters))
    decreases |letters|
  {
    if letters != [] {
      var e := letters[0].(sequence := s.nextSequence);
      PushNamed(s, e);
      LettersNamed(Push(s, e), letters[1..]);
    }
  }

  lemma {:induction false} EventAddressed(w: Work, topic: string, subs: seq<Subscription>, e: Event, ok: Answers)
    requires AllAddressed(w.letters) && forall j :: 0 <= j < |subs| ==> subs[j].deadLetterTopic != ""
    ensures AllAddressed(OneEvent(w, topic, subs, e, ok).0.letters)
    decreases |subs|
  {
    hide Key, Digits;
    if subs != [] { EventAddressed(OneSubscription(w, topic, subs[0], e, ok).0, topic, subs[1..], e, ok); }
  }

  lemma {:induction false} BatchAddressed(w: Work, topic: string, subs: seq<Subscription>, es: seq<Event>, ok: Answers)
    requires AllAddressed(w.letters) && forall j :: 0 <= j < |subs| ==> subs[j].deadLetterTopic != ""
    ensures AllAddressed(AllEvents(w, topic, subs, es, ok).0.letters)
    decreases |es|
  {
    hide OneEvent;
    if es != [] {
      EventAddressed(w, topic, subs, es[0], ok);
      BatchAddressed(OneEvent(w, topic, subs, es[0], ok).0, topic, subs, es[1..], ok);
    }
  }

  lemma DeliverNamed(s: State, topic: string, maxEvents: nat, ok: Answers, arriving: seq<Event>)
    requires NamedQueues(s) && Subscribed(s)
    ensures NamedQueues(Deliver(s, topic, maxEvents, ok, arriving))
  {
    hide AllEvents, PublishAll, PushLetters, Remaining, DistinctSubscriptions;
    PublishNamed(s, arriving);
    var subs := SubscriptionsOf(s, topic);
    if topic in s.queues && subs != [] {
      forall j | 0 <= j < |subs| ensures subs[j].deadLetterTopic != "" { assert Fine(subs[j], s.nextSubscription); }
      BatchAddressed(Work(s.attempts, []), topic, subs, Taken(s, topic, maxEvents), ok);
      var (w, ids) := AllEvents(Work(s.attempts, []), topic, subs, Taken(s, topic, maxEvents), ok);
      var now := PublishAll(s, arriving).(attempts := w.attempts);
      RemainingIs(Queue(now, topic), ids);
      var rest := now.(queues := now.queues[topic := Remaining(Queue(now, topic), ids)]);
      assert NamedQueues(rest) by { NamedWithout(Queue(now, topic), ids); }
      LettersNamed(rest, w.letters);
    }
  }

  lemma NamedWithout(q: seq<Event>, ids: seq<string>)
    requires AllNamed(q)
    ensures AllNamed(Remaining(q, ids))
  {
    hide Remaining;
    RemainingIs(q, ids);
    forall i | 0 <= i < |Remaining(q, ids)| ensures Remaining(q, ids)[i].id != "" {
      assert Remaining(q, ids)[i] in q;
    }
  }

  // ----- Counters -----

  /** A counter after a batch: as before, or that of a subscription of the batch, below its limit. */
  ghost predicate Moved(a: Attempts, b: Attempts, topic: string, subs: seq<Subscription>) {
    forall k :: k in b ==> (k in a && b[k] == a[k]) || OwnedBy(b, topic, subs, k)
  }

  lemma OneMoves(w: Work, topic: string, subs: seq<Subscription>, j: nat, e: Event, ok: Answers)
    requires j < |subs| && e.id != ""
    ensures Moved(w.attempts, OneSubscription(w, topic, subs[j], e, ok).0.attempts, topic, subs)
  {
    hide Key, Letter;
    var after, k := OneSubscription(w, topic, subs[j], e, ok).0.attempts, Key(topic, subs[j].id, e.id);
    if k in after && !(k in w.attempts && after[k] == w.attempts[k]) { assert Counts(after, topic, subs[j], e.id, k); }
  }

  lemma MovedTwice(a: Attempts, b: Attempts, c: Attempts, topic: string, subs: seq<Subscription>)
    requires Moved(a, b, topic, subs) && Moved(b, c, topic, subs)
    ensures Moved(a, c, topic, subs)
  {
    hide Key;
    forall k | k in c && !(k in a && c[k] == a[k]) ensures OwnedBy(c, topic, subs, k) {
      if k in b && c[k] == b[k] {
        var j, event :| 0 <= j < |subs| && Counts(b, topic, subs[j], event, k);
        assert Counts(c, topic, subs[j], event, k);
      }
    }
  }

  lemma {:induction false} EventMoves(w: Work, topic: string, subs: seq<Subscription>, n: nat, e: Event, ok: Answers)
    requires n <= |subs| && e.id != ""
    ensures Moved(w.attempts, OneEvent(w, topic, subs[n..], e, ok).0.attempts, topic, subs)
    decreases |subs| - n
  {
    hide Moved, OneSubscription;
    if n < |subs| {
      assert subs[n..][1..] == subs[n + 1..];
      var first := OneSubscription(w, topic, subs[n], e, ok).0;
      OneMoves(w, topic, subs, n, e, ok);
      EventMoves(first, topic, subs, n + 1, e, ok);
      MovedTwice(w.attempts, first.attempts, OneEvent(w, topic, subs[n..], e, ok).0.attempts, topic, subs);
    } else {
      assert Moved(w.attempts, w.attempts, topic, subs) by { NotMoved(w.attempts, topic, subs); }
    }
  }

  lemma NotMoved(a: Attempts, topic: string, subs: seq<Subscription>)
    ensures Moved(a, a, topic, subs)
  {}

  lemma {:induction false} BatchMoves(w: Work, topic: string, subs: seq<Subscription>, es: seq<Event>, ok: Answers)
    requires AllNamed(es)
    ensures Moved(w.attempts, AllEvents(w, topic, subs, es, ok).0.attempts, topic, subs)
    decreases |es|
  {
    hide Moved, OneEvent;
    if es != [] {
      var first := OneEvent(w, topic, subs, es[0], ok).0;
      assert subs[0..] == subs;
      EventMoves(w, topic, subs, 0, es[0], ok);
      BatchMoves(first, topic, subs, es[1..], ok);
      MovedTwice(w.attempts, first.attempts, AllEvents(w, topic, subs, es, ok).0.attempts, topic, subs);
    } else {
      NotMoved(w.attempts, topic, subs);
    }
  }

  /** Counters that stay, or belong to a subscription that is there, are owned. */
  lemma StillOwned(s: State, s': State, topic: string)
    requires forall k :: k in s.attempts ==> Owned(s, k)
    requires forall t :: SubscriptionsOf(s, t) <= SubscriptionsOf(s', t)
    requires s'.attempts == s.attempts || (topic != "" && Moved(s.attempts, s'.attempts, topic, SubscriptionsOf(s', topic)))
    ensures forall k :: k in s'.attempts ==> Owned(s', k)
  {
    hide Key, DistinctSubscriptions;
    forall k | k in s'.attempts ensures Owned(s', k) {
      if k in s.attempts && s'.attempts[k] == s.attempts[k] {
        var t :| t != "" && OwnedBy(s.attempts, t, SubscriptionsOf(s, t), k);
        var subs := SubscriptionsOf(s, t);
        var j, event :| 0 <= j < |subs| && Counts(s.attempts, t, subs[j], event, k);
        assert SubscriptionsOf(s', t)[j] == subs[j];
        assert Counts(s'.attempts, t, SubscriptionsOf(s', t)[j], event, k);
        assert OwnedBy(s'.attempts, t, SubscriptionsOf(s', t), k);
      } else {
        assert OwnedBy(s'.attempts, topic, SubscriptionsOf(s', topic), k);
      }
    }
  }

  lemma SubscribeKeeps(s: State, a: Act)
    requires Subscribed(s) && a.DoSubscribe?
    ensures Subscribed(Perform(s, a)) && forall t :: SubscriptionsOf(s, t) <= SubscriptionsOf(Perform(s, a), t)
  {
    var s' := Perform(s, a);
    forall t ensures DistinctSubscriptions(SubscriptionsOf(s', t)) {
      assert DistinctSubscriptions(SubscriptionsOf(s, t));
    }
    forall t, j | 0 <= j < |SubscriptionsOf(s', t)| ensures Fine(SubscriptionsOf(s', t)[j], s'.nextSubscription) {
      assert j < |SubscriptionsOf(s, t)| ==> Fine(SubscriptionsOf(s, t)[j], s.nextSubscription);
    }
  }

  lemma StepKeepsInv(s: State, a: Act)
    requires Inv(s)
    ensures Inv(Perform(s, a))
  {
    hide Deliver, Owned, Fine, DistinctSubscriptions;
    var s' := Perform(s, a);
    match a
    case DoPublish(e) =>
      assert PublishAll(s, [e]) == s' by { assert [e][1..] == []; }
      PublishNamed(s, [e]);
      StillOwned(s, s', "");
      assert forall t :: SubscriptionsOf(s', t) == SubscriptionsOf(s, t);
    case DoSubscribe(_, _, _, _) =>
      SubscribeKeeps(s, a);
      StillOwned(s, s', "");
    case DoDeliver(topic, maxEvents, ok, arriving) =>
      DeliverNamed(s, topic, maxEvents, ok, arriving);
      DeliverOwned(s, topic, maxEvents, ok, arriving);
      DeliverKeepsRest(s, topic, maxEvents, ok, arriving);
      assert forall t :: SubscriptionsOf(s', t) == SubscriptionsOf(s, t);
  }

  lemma DeliverOwned(s: State, topic: string, maxEvents: nat, ok: Answers, arriving: seq<Event>)
    requires Inv(s)
    ensures var s' := Deliver(s, topic, maxEvents, ok, arriving); forall k :: k in s'.attempts ==> Owned(s', k)
  {
    hide Deliver, Moved, Owned, AllEvents, Fine, DistinctSubscriptions;
    DeliverKeepsRest(s, topic, maxEvents, ok, arriving);
    var s', subs := Deliver(s, topic, maxEvents, ok, arriving), SubscriptionsOf(s, topic);
    if topic in s.queues {
      assert AllNamed(s.queues[topic]);
      BatchMoves(Work(s.attempts, []), topic, subs, Taken(s, topic, maxEvents), ok);
    }
    assert forall t :: SubscriptionsOf(s', t) == SubscriptionsOf(s, t);
    StillOwned(s, s', topic);
  }

  lemma {:induction false} RunKeepsInv(s: State, acts: seq<Act>)
    requires Inv(s)
    ensures Inv(PerformAll(s, acts))
    decreases |acts|
  {
    hide Inv, Perform;
    if acts != [] {
      StepKeepsInv(s, acts[0]);
      RunKeepsInv(Perform(s, acts[0]), acts[1..]);
    }
  }

  // ----- When all counters stay below their limits -----

  /** Every counter of every subscription is below its limit. */
  ghost predicate AllBelow(s: State) {
    forall t, i, event :: 0 <= i < |SubscriptionsOf(s, t)| ==>
      Count(s.attempts, Key(t, SubscriptionsOf(s, t)[i].id, event)) < SubscriptionsOf(s, t)[i].maxAttempts
  }

  /** The key of the first is also that of the second, a handler that gets more attempts. */
  predicate Outcounts(t: string, sub: Subscription, e: string, u: string, other: Subscription, f: string) {
    && other.handled && u != "" && f != ""
    && Key(t, sub.id, e) == Key(u, other.id, f) && sub.maxAttempts < other.maxAttempts
  }

  /** No subscription shares a key with a handler that gets more attempts. */
  ghost predicate Compatible(s: State) {
    forall t, i, e, u, j, f :: 0 <= i < |SubscriptionsOf(s, t)| && 0 <= j < |SubscriptionsOf(s, u)| ==>
      !Outcounts(t, SubscriptionsOf(s, t)[i], e, u, SubscriptionsOf(s, u)[j], f)
  }

  /** Nobody subscribes. */
  predicate Quiet(acts: seq<Act>) {
    forall i :: 0 <= i < |acts| ==> !acts[i].DoSubscribe?
  }

  lemma CompatibleIsBelow(s: State)
    requires Inv(s) && Compatible(s)
    ensures AllBelow(s)
  {
    hide Key;
    forall t, i, event | 0 <= i < |SubscriptionsOf(s, t)|
      ensures Count(s.attempts, Key(t, SubscriptionsOf(s, t)[i].id, event)) < SubscriptionsOf(s, t)[i].maxAttempts
    {
      var k := Key(t, SubscriptionsOf(s, t)[i].id, event);
      assert Fine(SubscriptionsOf(s, t)[i], s.nextSubscription);
      if k in s.attempts {
        assert Owned(s, k);
        var u :| u != "" && OwnedBy(s.attempts, u, SubscriptionsOf(s, u), k);
        var j, f :| 0 <= j < |SubscriptionsOf(s, u)| && Counts(s.attempts, u, SubscriptionsOf(s, u)[j], f, k);
        assert !Outcounts(t, SubscriptionsOf(s, t)[i], event, u, SubscriptionsOf(s, u)[j], f);
      }
    }
  }

  lemma {:induction false} QuietKeepsSubscriptions(s: State, acts: seq<Act>)
    requires Quiet(acts)
    ensures PerformAll(s, acts).subscriptions == s.subscriptions
    decreases |acts|
  {
    hide Deliver;
    if acts != [] {
      var a := acts[0];
      if a.DoDeliver? { DeliverKeepsRest(s, a.topic, a.maxEvents, a.ok, a.arriving); }
      QuietKeepsSubscriptions(Perform(s, a), acts[1..]);
    }
  }

  // ----- How a counter reaches the limit of another subscription -----

  lemma {:induction false} AllWellEvent(w: Work, topic: string, subs: seq<Subscription>, e: Event)
    ensures var after := OneEvent(w, topic, subs, e, Always).0;
            after.letters == w.letters && forall k :: Count(after.attempts, k) <= Count(w.attempts, k)
    decreases |subs|
  {
    hide Key;
    if subs != [] { AllWellEvent(OneSubscription(w, topic, subs[0], e, Always).0, topic, subs[1..], e); }
  }

  lemma {:induction false} AllWell(w: Work, topic: string, subs: seq<Subscription>, es: seq<Event>)
    ensures var after := AllEvents(w, topic, subs, es, Always).0;
            after.letters == w.letters && forall k :: Count(after.attempts, k) <= Count(w.attempts, k)
    decreases |es|
  {
    hide OneEvent, Count;
    if es != [] {
      AllWellEvent(w, topic, subs, es[0]);
      AllWell(OneEvent(w, topic, subs, es[0], Always).0, topic, subs, es[1..]);
    }
  }

  lemma EmptyOrHas<T>(s: seq<T>)
    ensures s == [] || exists x :: x in s
  {
    if s != [] { assert s[0] in s; }
  }

  /** A delivery at which all goes well empties the topic. */
  lemma Drain(s: State, topic: string)
    requires SubscriptionsOf(s, topic) != []
    ensures var s' := Deliver(s, topic, 0, Always, []);
            s'.subscriptions == s.subscriptions && Queue(s', topic) == [] && forall k :: Count(s'.attempts, k) <= Count(s.attempts, k)
  {
    hide AllEvents, Remaining, Count;
    if topic in s.queues {
      var w, subs, q := Work(s.attempts, []), SubscriptionsOf(s, topic), s.queues[topic];
      AllWell(w, topic, subs, q);
      AllLeave(w, topic, subs, q);
      var ids := AllEvents(w, topic, subs, q, Always).1;
      RemainingIs(q, ids);
      var left := Remaining(q, ids);
      assert forall e :: e in q ==> e.id in ids;
      EmptyOrHas(left);
      EmptyOrHas(q);
    }
  }

  function OnlyFails(id: nat): Answers {
    (i: nat, e: Event) => i != id
  }

  lemma {:induction false} NoLetters(a: Attempts, topic: string, subs: seq<Subscription>, e: Event, ok: Answers)
    requires forall i :: 0 <= i < |subs| ==> !GivesUp(a, topic, subs[i], e, ok)
    ensures EventLetters(a, topic, subs, e, ok) == []
    decreases |subs|
  {
    hide GivesUp;
    if subs != [] {
      forall i | 0 <= i < |subs[1..]| ensures !GivesUp(a, topic, subs[1..][i], e, ok) { assert subs[1..][i] == subs[i + 1]; }
      NoLetters(a, topic, subs[1..], e, ok);
    }
  }

  /** A delivery of one event that only one handler fails, with attempts left, counts one more attempt. */
  lemma FailOnce(s: State, topic: string, j: nat, e: Event)
    requires topic in s.queues && s.queues[topic] == [e] && DistinctSubscriptions(SubscriptionsOf(s, topic))
    requires j < |SubscriptionsOf(s, topic)| && SubscriptionsOf(s, topic)[j].handled
    requires Count(s.attempts, Key(topic, SubscriptionsOf(s, topic)[j].id, e.id)) + 1 < SubscriptionsOf(s, topic)[j].maxAttempts
    ensures var id := SubscriptionsOf(s, topic)[j].id;
            var s', k := Deliver(s, topic, 0, OnlyFails(id), []), Key(topic, id, e.id);
            s'.subscriptions == s.subscriptions && s'.queues == s.queues && Count(s'.attempts, k) == Count(s.attempts, k) + 1
  {
    hide AllEvents, Key, Remaining, Letter, PushLetters;
    var w, subs := Work(s.attempts, []), SubscriptionsOf(s, topic);
    var ok := OnlyFails(subs[j].id);
    BatchCounts(w, topic, subs, [e], ok, e, j);
    BatchDecided(w, topic, subs, [e], ok, 0);
    assert Retries(s.attempts, topic, subs[j], e, ok);
    LeavingIds(w, topic, subs, [e], ok);
    var ids := AllEvents(w, topic, subs, [e], ok).1;
    assert [e][0] == e && e.id !in ids;
    EmptyOrHas(ids);
    BatchLettersAre(w, topic, subs, [e], ok);
    NoLetters(s.attempts, topic, subs, e, ok);
    assert BatchLetters(s.attempts, topic, subs, [e], ok) == [] by { assert [e][1..] == []; }
  }

  /** `n` deliveries that only one handler fails. */
  function Failing(topic: string, id: nat, n: nat): seq<Act> {
    if n == 0 then [] else [DoDeliver(topic, 0, OnlyFails(id), [])] + Failing(topic, id, n - 1)
  }

  lemma PerformFirst(s: State, a: Act, acts: seq<Act>)
    ensures PerformAll(s, [a] + acts) == PerformAll(Perform(s, a), acts)
  {
    hide Perform;
    assert ([a] + acts)[1..] == acts;
  }

  lemma {:induction false} FailTimes(s: State, topic: string, j: nat, e: Event, n: nat)
    requires topic in s.queues && s.queues[topic] == [e] && DistinctSubscriptions(SubscriptionsOf(s, topic))
    requires j < |SubscriptionsOf(s, topic)| && SubscriptionsOf(s, topic)[j].handled
    requires Count(s.attempts, Key(topic, SubscriptionsOf(s, topic)[j].id, e.id)) + n < SubscriptionsOf(s, topic)[j].maxAttempts
    ensures var id := SubscriptionsOf(s, topic)[j].id;
            var s', k := PerformAll(s, Failing(topic, id, n)), Key(topic, id, e.id);
            s'.subscriptions == s.subscriptions && Count(s'.attempts, k) == Count(s.attempts, k) + n
    ensures Quiet(Failing(topic, SubscriptionsOf(s, topic)[j].id, n))
    decreases n
  {
    hide Deliver, Key, PerformAll, OnlyFails, DistinctSubscriptions;
    var id := SubscriptionsOf(s, topic)[j].id;
    if n > 0 {
      var a := DoDeliver(topic, 0, OnlyFails(id), []);
      FailOnce(s, topic, j, e);
      PerformFirst(s, a, Failing(topic, id, n - 1));
      FailTimes(Perform(s, a), topic, j, e, n - 1);
    } else {
      assert PerformAll(s, []) == s by { NothingPerformed(s); }
    }
  }

  lemma NothingPerformed(s: State)
    ensures PerformAll(s, []) == s
  {}

  /** A handler with more attempts brings a counter that another subscription shares up to that one's limit. */
  lemma Reach(s: State, t: string, i: nat, e: string, u: string, j: nat, f: string) returns (acts: seq<Act>)
    requires Inv(s) && AllBelow(s) && i < |SubscriptionsOf(s, t)| && j < |SubscriptionsOf(s, u)|
    requires Outcounts(t, SubscriptionsOf(s, t)[i], e, u, SubscriptionsOf(s, u)[j], f)
    ensures Quiet(acts) && !AllBelow(PerformAll(s, acts))
  {
    hide Deliver, Key, PerformAll, DistinctSubscriptions, Inv, Subscribed;
    var first, second, id := DoDeliver(u, 0, Always, []), DoPublish(Event(f, u, "", "", 0)), SubscriptionsOf(s, u)[j].id;
    var s1 := Perform(s, first);
    var s2 := Perform(s1, second);
    var k, limit := Key(u, id, f), SubscriptionsOf(s, t)[i].maxAttempts;
    Drain(s, u);
    assert Count(s1.attempts, k) <= Count(s.attempts, k) < limit;
    var event := Named(s1, second.event);
    assert Queue(s1, u) + [event] == [event];
    assert SubscriptionsOf(s2, u) == SubscriptionsOf(s, u);
    assert DistinctSubscriptions(SubscriptionsOf(s, u)) by { InvDistinct(s, u); }
    var n := limit - Count(s1.attempts, k);
    FailTimes(s2, u, j, event, n);
    var rest := Failing(u, id, n);
    acts := [first] + ([second] + rest);
    PerformFirst(s, first, [second] + rest);
    PerformFirst(s1, second, rest);
    var s3 := PerformAll(s2, rest);
    assert SubscriptionsOf(s3, t)[i] == SubscriptionsOf(s, t)[i];
    assert Count(s3.attempts, Key(t, SubscriptionsOf(s3, t)[i].id, e)) == limit;
  }

  lemma InvDistinct(s: State, t: string)
    requires Inv(s)
    ensures DistinctSubscriptions(SubscriptionsOf(s, t))
  {
    hide DistinctSubscriptions, Owned;
  }

  /** All counters stay below all limits, as long as nobody subscribes, exactly when no subscription is outcounted. */
  lemma StaysBelowIff(s: State)
    requires Inv(s)
    ensures (forall acts :: Quiet(acts) ==> AllBelow(PerformAll(s, acts))) <==> Compatible(s)
  {
    hide Inv, AllBelow, PerformAll, Outcounts;
    if Compatible(s) {
      forall acts | Quiet(acts) ensures AllBelow(PerformAll(s, acts)) {
        RunKeepsInv(s, acts);
        QuietKeepsSubscriptions(s, acts);
        var f := PerformAll(s, acts);
        assert forall t :: SubscriptionsOf(f, t) == SubscriptionsOf(s, t);
        CompatibleIsBelow(f);
      }
    } else {
      var t, i, e, u, j, f :| 0 <= i < |SubscriptionsOf(s, t)| && 0 <= j < |SubscriptionsOf(s, u)|
        && Outcounts(t, SubscriptionsOf(s, t)[i], e, u, SubscriptionsOf(s, u)[j], f);
      NothingPerformed(s);
      assert Quiet([]);
      if AllBelow(s) { var acts := Reach(s, t, i, e, u, j, f); }
    }
  }

  /**
   In every run each stored counter is that of some handler, below its limit; and from there on all subscriptions'
   counters stay below their own limits, as long as nobody subscribes, exactly when no subscription is outcounted.
   */
  lemma EveryRunIsBounded(acts: seq<Act>)
    ensures var f := PerformAll(EMPTY, acts);
            && (forall k :: k in f.attempts ==> Owned(f, k))
            && ((forall more :: Quiet(more) ==> AllBelow(PerformAll(f, more))) <==> Compatible(f))
  {
    assert Inv(EMPTY);
    hide PerformAll, AllBelow, Compatible, Owned;
    RunKeepsInv(EMPTY, acts);
    StaysBelowIff(PerformAll(EMPTY, acts));
  }

  // ----- Topics with a bar -----

  /** Two topics with one subscription each, and one failed delivery of the second. */
  function TwoTopicRun(t: string, u: string): seq<Act> {
    [DoSubscribe(t, true, 1, ""), DoSubscribe(u, true, 5, ""), DoPublish(Event("e", u, "", "", 0)), DoDeliver(u, 0, OnlyFails(2), [])]
  }

  lemma SharedKeyBreaks(t: string, u: string, event: string)
    requires t != u && u != "" && Key(t, 1, event) == Key(u, 2, "e")
    ensures !AllBelow(PerformAll(EMPTY, TwoTopicRun(t, u)))
  {
    hide Key, Deliver, PerformAll, OnlyFails, Publish, Subscribe;
    var s := TwoTopics(t, u);
    FailOnce(s, u, 0, Event("e", u, "", "", 1));
    PerformFour(EMPTY, TwoTopicRun(t, u));
    var f := PerformAll(EMPTY, TwoTopicRun(t, u));
    assert SubscriptionsOf(f, t) == SubscriptionsOf(s, t);
    assert Count(f.attempts, Key(t, SubscriptionsOf(f, t)[0].id, event)) == 1;
  }

  /** With topics `a` and `a|1`, one failed delivery of the second leaves a counter at the limit of the first. */
  lemma BarsBreakTheLimit()
    ensures Key("a", 1, "2|e") == Key("a|1", 2, "e") && !AllBelow(PerformAll(EMPTY, TwoTopicRun("a", "a|1")))
  {
    assert Digits(1) == "1" && Digits(2) == "2";
    assert Key("a", 1, "2|e") == "a|1|2|e" == Key("a|1", 2, "e");
    hide Key, Digits, PerformAll, AllBelow, TwoTopicRun;
    assert |"a"| != |"a|1"|;
    SharedKeyBreaks("a", "a|1", "2|e");
  }

  /** Subscriptions 1 and 2 with limits 1 and 5 to two topics, and an event published to the second. */
  lemma TwoTopics(t: string, u: string) returns (s: State)
    requires t != u && u != ""
    ensures s == Publish(Subscribe(Subscribe(EMPTY, t, true, 1, ""), u, true, 5, ""), Event("e", u, "", "", 0))
    ensures s.attempts == map[] && s.queues == map[u := [Event("e", u, "", "", 1)]]
    ensures SubscriptionsOf(s, t) == [Subscription(1, true, 1, t + ".DLQ")]
    ensures SubscriptionsOf(s, u) == [Subscription(2, true, 5, u + ".DLQ")]
  {
    var s1 := Subscribe(EMPTY, t, true, 1, "");
    var s2 := Subscribe(s1, u, true, 5, "");
    s := Publish(s2, Event("e", u, "", "", 0));
    var e := Event("e", u, "", "", 1);
    assert Named(s2, Event("e", u, "", "", 0)) == e;
    assert Queue(s2, u) + [e] == [e];
    assert s.queues == map[u := [e]];
    assert SubscriptionsOf(s, t) == [Subscription(1, true, 1, t + ".DLQ")];
    assert SubscriptionsOf(s, u) == [Subscription(2, true, 5, u + ".DLQ")];
  }

  lemma PerformFour(s: State, acts: seq<Act>)
    requires |acts| == 4
    ensures PerformAll(s, acts) == Perform(Perform(Perform(Perform(s, acts[0]), acts[1]), acts[2]), acts[3])
  {
    hide Perform;
    var s1 := Perform(s, acts[0]);
    var s2 := Perform(s1, acts[1]);
    var s3 := Perform(s2, acts[2]);
    assert acts[1..][1..] == acts[2..] && acts[2..][1..] == acts[3..] && acts[3..][1..] == [];
    assert PerformAll(s3, acts[3..]) == Perform(s3, acts[3]);
    assert PerformAll(s2, acts[2..]) == PerformAll(s3, acts[3..]);
    assert PerformAll(s1, acts[1..]) == PerformAll(s2, acts[2..]);
  }
}
