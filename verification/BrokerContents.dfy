/** Where the contents of queued events come from, over whole runs of the broker. */
module BrokerContents {
  import opened Broker
  import opened BrokerRuns
  import opened Text

  /** Every event somebody publishes in a run, in order. */
  function Published(acts: seq<Act>): seq<Event> {
    if acts == [] then [] else PublishedBy(acts[0]) + Published(acts[1..])
  }

  function PublishedBy(a: Act): seq<Event> {
    match a
    case DoPublish(e) => [e]
    case DoSubscribe(_, _, _, _) => []
    case DoDeliver(_, _, _, arriving) => arriving
  }

  /** Key and payload are those of a published event. */
  ghost predicate Sourced(x: Event, ps: seq<Event>) {
    exists i :: 0 <= i < |ps| && ps[i].key == x.key && ps[i].payload == x.payload
  }

  ghost predicate AllSourced(es: seq<Event>, ps: seq<Event>) {
    forall i :: 0 <= i < |es| ==> Sourced(es[i], ps)
  }

  predicate AllAt(es: seq<Event>, topic: string) {
    forall i :: 0 <= i < |es| ==> es[i].topic == topic
  }

  ghost predicate QueuesSourced(s: State, ps: seq<Event>) {
    forall t :: t in s.queues ==> AllSourced(s.queues[t], ps) && AllAt(s.queues[t], t)
  }

  lemma SourcedLonger(es: seq<Event>, ps: seq<Event>, more: seq<Event>)
    requires AllSourced(es, ps)
    ensures AllSourced(es, ps + more)
  {
    forall k | 0 <= k < |es| ensures Sourced(es[k], ps + more) {
      assert Sourced(es[k], ps);
      var i :| 0 <= i < |ps| && ps[i].key == es[k].key && ps[i].payload == es[k].payload;
      assert (ps + more)[i] == ps[i];
    }
  }

  lemma QueuesLonger(s: State, ps: seq<Event>, more: seq<Event>)
    requires QueuesSourced(s, ps)
    ensures QueuesSourced(s, ps + more)
  {
    forall t | t in s.queues ensures AllSourced(s.queues[t], ps + more) && AllAt(s.queues[t], t) {
      SourcedLonger(s.queues[t], ps, more);
    }
  }

  lemma PushSourced(s: State, e: Event, ps: seq<Event>)
    requires QueuesSourced(s, ps) && Sourced(e, ps)
    ensures QueuesSourced(Push(s, e), ps)
  {
    hide Sourced;
  }

  lemma {:induction false} PublishSourced(s: State, es: seq<Event>, ps: seq<Event>)
    requires QueuesSourced(s, ps) && AllSourced(es, ps)
    ensures QueuesSourced(PublishAll(s, es), ps)
    decreases |es|
  {
    hide QueuesSourced, Push;
    if es != [] {
      if es[0].topic != "" {
        assert Sourced(Named(s, es[0]), ps);
        PushSourced(s, Named(s, es[0]), ps);
      }
      PublishSourced(Publish(s, es[0]), es[1..], ps);
    }
  }

  lemma {:induction false} LettersSourced(s: State, letters: seq<Event>, ps: seq<Event>)
    requires QueuesSourced(s, ps) && AllSourced(letters, ps)
    ensures QueuesSourced(PushLetters(s, letters), ps)
    decreases |letters|
  {
    hide QueuesSourced, Push;
    if letters != [] {
      var e := letters[0].(sequence := s.nextSequence);
      assert Sourced(e, ps);
      PushSourced(s, e, ps);
      LettersSourced(Push(s, e), letters[1..], ps);
    }
  }

  lemma {:induction false} EventLettersSourced(w: Work, topic: string, subs: seq<Subscription>, e: Event, ok: Answers, ps: seq<Event>)
    requires AllSourced(w.letters, ps) && Sourced(e, ps)
    ensures AllSourced(OneEvent(w, topic, subs, e, ok).0.letters, ps)
    decreases |subs|
  {
    hide Key, Digits;
    if subs != [] { EventLettersSourced(OneSubscription(w, topic, subs[0], e, ok).0, topic, subs[1..], e, ok, ps); }
  }

  lemma {:induction false} BatchLettersSourced(w: Work, topic: string, subs: seq<Subscription>, es: seq<Event>, ok: Answers, ps: seq<Event>)
    requires AllSourced(w.letters, ps) && AllSourced(es, ps)
    ensures AllSourced(AllEvents(w, topic, subs, es, ok).0.letters, ps)
    decreases |es|
  {
    hide OneEvent, Sourced;
    if es != [] {
      EventLettersSourced(w, topic, subs, es[0], ok, ps);
      BatchLettersSourced(OneEvent(w, topic, subs, es[0], ok).0, topic, subs, es[1..], ok, ps);
    }
  }

  lemma RestSourced(q: seq<Event>, ids: seq<string>, topic: string, ps: seq<Event>)
    requires AllSourced(q, ps) && AllAt(q, topic)
    ensures AllSourced(Remaining(q, ids), ps) && AllAt(Remaining(q, ids), topic)
  {
    hide Remaining, Sourced;
    RemainingIs(q, ids);
    var rest := Remaining(q, ids);
    assert forall i :: 0 <= i < |rest| ==> rest[i] in q;
  }

  lemma DeliverSourced(s: State, topic: string, maxEvents: nat, ok: Answers, arriving: seq<Event>, ps: seq<Event>)
    requires QueuesSourced(s, ps) && AllSourced(arriving, ps)
    ensures QueuesSourced(Deliver(s, topic, maxEvents, ok, arriving), ps)
  {
    hide AllEvents, PublishAll, PushLetters, Remaining, Sourced;
    PublishSourced(s, arriving, ps);
    var subs, taken := SubscriptionsOf(s, topic), Taken(s, topic, maxEvents);
    if topic in s.queues && subs != [] {
      BatchLettersSourced(Work(s.attempts, []), topic, subs, taken, ok, ps);
      var (w, ids) := AllEvents(Work(s.attempts, []), topic, subs, taken, ok);
      var now := PublishAll(s, arriving).(attempts := w.attempts);
      RestSourced(Queue(now, topic), ids, topic, ps);
      LettersSourced(now.(queues := now.queues[topic := Remaining(Queue(now, topic), ids)]), w.letters, ps);
    }
  }

  lemma TheySourceThemselves(ps: seq<Event>, more: seq<Event>)
    ensures AllSourced(more, ps + more)
  {
    forall k | 0 <= k < |more| ensures Sourced(more[k], ps + more) {
      assert (ps + more)[|ps| + k] == more[k];
    }
  }

  lemma StepSourced(s: State, a: Act, ps: seq<Event>)
    requires QueuesSourced(s, ps)
    ensures QueuesSourced(Perform(s, a), ps + PublishedBy(a))
  {
    hide Deliver, QueuesSourced, Sourced;
    QueuesLonger(s, ps, PublishedBy(a));
    TheySourceThemselves(ps, PublishedBy(a));
    match a
    case DoPublish(e) =>
      PublishSourced(s, [e], ps + [e]);
      assert [e][1..] == [];
      assert PublishAll(Publish(s, e), []) == Publish(s, e);
    case DoSubscribe(topic, handled, maxAttempts, d) =>
      SubscribeSourced(s, a, ps);
      assert ps + [] == ps;
    case DoDeliver(topic, maxEvents, ok, arriving) => DeliverSourced(s, topic, maxEvents, ok, arriving, ps + arriving);
  }

  lemma SubscribeSourced(s: State, a: Act, ps: seq<Event>)
    requires QueuesSourced(s, ps) && a.DoSubscribe?
    ensures QueuesSourced(Perform(s, a), ps)
  {
    hide Sourced;
  }

  lemma {:induction false} RunSourced(s: State, acts: seq<Act>, ps: seq<Event>)
    requires QueuesSourced(s, ps)
    ensures QueuesSourced(PerformAll(s, acts), ps + Published(acts))
    decreases |acts|
  {
    hide QueuesSourced, Perform;
    if acts == [] {
      assert ps + [] == ps;
    } else {
      StepSourced(s, acts[0], ps);
      RunSourced(Perform(s, acts[0]), acts[1..], ps + PublishedBy(acts[0]));
      assert ps + PublishedBy(acts[0]) + Published(acts[1..]) == ps + Published(acts);
    }
  }

  /**
   In every run of a broker, through any number of retries and dead-letter topics that are subscribed in turn: every
   queued event stands in the queue of its own topic and carries the key and payload of an event that was published.
   */
  lemma EveryRunInventsNothing(acts: seq<Act>)
    ensures var f := PerformAll(EMPTY, acts);
            forall t, i :: t in f.queues && 0 <= i < |f.queues[t]| ==>
              f.queues[t][i].topic == t
              && exists p :: p in Published(acts) && p.key == f.queues[t][i].key && p.payload == f.queues[t][i].payload
  {
    RunSourced(EMPTY, acts, []);
    assert [] + Published(acts) == Published(acts);
    hide PerformAll, Published;
    var f, ps := PerformAll(EMPTY, acts), Published(acts);
    forall t, i | t in f.queues && 0 <= i < |f.queues[t]|
      ensures f.queues[t][i].topic == t && exists p :: p in ps && p.key == f.queues[t][i].key && p.payload == f.queues[t][i].payload
    {
      var x := f.queues[t][i];
      assert Sourced(x, ps);
      var k :| 0 <= k < |ps| && ps[k].key == x.key && ps[k].payload == x.payload;
      assert ps[k] in ps;
    }
  }
}
