/** The in-memory broker: topic queues, subscriptions, attempt counters and dead letters. */
module Broker {
  import opened Common
  import opened Text
  import opened Subsequence

  /** An event with its texts as text; `OutboxCodec` has the same record as bytes. */
  datatype Event = Event(id: string, topic: string, key: string, payload: string, sequence: nat)

  /** A subscription; `handled` says whether it has a handler at all. */
  datatype Subscription = Subscription(id: nat, handled: bool, maxAttempts: nat, deadLetterTopic: string)

  type Attempts = map<string, nat>

  datatype State = State(
    queues: map<string, seq<Event>>, subscriptions: map<string, seq<Subscription>>, attempts: Attempts,
    nextSequence: nat, nextSubscription: nat)

  /** What the handler of a subscription answers for an event, in one delivery. */
  type Answers = (nat, Event) -> bool

  function Queue(s: State, topic: string): seq<Event> {
    if topic in s.queues then s.queues[topic] else []
  }

  function SubscriptionsOf(s: State, topic: string): seq<Subscription> {
    if topic in s.subscriptions then s.subscriptions[topic] else []
  }

  // ----- Publish and subscribe -----

  function Named(s: State, e: Event): Event {
    e.(id := if e.id == "" then e.topic + "-" + Digits(s.nextSequence) else e.id, sequence := s.nextSequence)
  }

  function Push(s: State, e: Event): State {
    s.(queues := s.queues[e.topic := Queue(s, e.topic) + [e]], nextSequence := s.nextSequence + 1)
  }

  function Publish(s: State, e: Event): State {
    if e.topic == "" then s else Push(s, Named(s, e))
  }

  function PublishAll(s: State, es: seq<Event>): State
    decreases |es|
  {
    if es == [] then s else PublishAll(Publish(s, es[0]), es[1..])
  }

  function Subscribe(s: State, topic: string, handled: bool, maxAttempts: nat, deadLetterTopic: string): State {
    var d := if deadLetterTopic == "" then topic + ".DLQ" else deadLetterTopic;
    var m := if maxAttempts == 0 then 1 else maxAttempts;
    s.(subscriptions := s.subscriptions[topic := SubscriptionsOf(s, topic) + [Subscription(s.nextSubscription, handled, m, d)]],
       nextSubscription := s.nextSubscription + 1)
  }

  // ----- One delivery -----

  function Key(topic: string, subscription: nat, event: string): string {
    topic + "|" + Digits(subscription) + "|" + event
  }

  function Count(a: Attempts, k: string): nat {
    if k in a then a[k] else 0
  }

  function Letter(sub: Subscription, e: Event, attempts: nat): Event {
    e.(topic := sub.deadLetterTopic, id := sub.deadLetterTopic + "-" + e.id + "-" + Digits(attempts), sequence := 0)
  }

  datatype Work = Work(attempts: Attempts, letters: seq<Event>)

  /** One handler call, and whether the event may leave as far as this subscription goes. */
  function OneSubscription(w: Work, topic: string, sub: Subscription, e: Event, ok: Answers): (Work, bool) {
    var k := Key(topic, sub.id, e.id);
    var n := Count(w.attempts, k) + 1;
    if !sub.handled then (w, true)
    else if ok(sub.id, e) then (w.(attempts := w.attempts - {k}), true)
    else if n >= sub.maxAttempts then (Work(w.attempts - {k}, w.letters + [Letter(sub, e, n)]), true)
    else (w.(attempts := w.attempts[k := n]), false)
  }

  function OneEvent(w: Work, topic: string, subs: seq<Subscription>, e: Event, ok: Answers): (Work, bool)
    decreases |subs|
  {
    if subs == [] then (w, true)
    else
      var (first, leaves) := OneSubscription(w, topic, subs[0], e, ok);
      var (rest, others) := OneEvent(first, topic, subs[1..], e, ok);
      (rest, leaves && others)
  }

  /** All events of the batch; the ids of those that leave. */
  function AllEvents(w: Work, topic: string, subs: seq<Subscription>, es: seq<Event>, ok: Answers): (Work, seq<string>)
    decreases |es|
  {
    if es == [] then (w, [])
    else
      var (first, leaves) := OneEvent(w, topic, subs, es[0], ok);
      var (rest, ids) := AllEvents(first, topic, subs, es[1..], ok);
      (rest, (if leaves then [es[0].id] else []) + ids)
  }

  /** The queue without the events of those ids. */
  function Remaining(q: seq<Event>, ids: seq<string>): seq<Event> {
    if q == [] then [] else (if q[0].id in ids then [] else [q[0]]) + Remaining(q[1..], ids)
  }

  function PushLetters(s: State, letters: seq<Event>): State
    decreases |letters|
  {
    if letters == [] then s
    else PushLetters(Push(s, letters[0].(sequence := s.nextSequence)), letters[1..])
  }

  function Taken(s: State, topic: string, maxEvents: nat): seq<Event> {
    var q := Queue(s, topic);
    if maxEvents == 0 || maxEvents >= |q| then q else q[..maxEvents]
  }

  /** `deliver`, while the events `arriving` are published by others as the handlers run. */
  function Deliver(s: State, topic: string, maxEvents: nat, ok: Answers, arriving: seq<Event>): State {
    var subs := SubscriptionsOf(s, topic);
    if topic !in s.queues || subs == [] then PublishAll(s, arriving)
    else
      var (w, ids) := AllEvents(Work(s.attempts, []), topic, subs, Taken(s, topic, maxEvents), ok);
      var now := PublishAll(s, arriving).(attempts := w.attempts);
      if ids == [] && w.letters == [] then now
      else PushLetters(now.(queues := now.queues[topic := Remaining(Queue(now, topic), ids)]), w.letters)
  }

  // ----- Attempt keys -----

  lemma DigitsHaveNoBar(n: nat)
    ensures '|' !in Digits(n)
  {}

  /** Under one topic a key names one subscription and one event. */
  lemma KeyInjective(topic: string, a: nat, e: string, b: nat, f: string)
    ensures Key(topic, a, e) == Key(topic, b, f) <==> a == b && e == f
  {
    hide Digits, Before;
    if Key(topic, a, e) == Key(topic, b, f) {
      var n := |topic| + 1;
      assert Key(topic, a, e)[n..] == Digits(a) + ['|'] + e;
      assert Key(topic, b, f)[n..] == Digits(b) + ['|'] + f;
      DigitsHaveNoBar(a);
      DigitsHaveNoBar(b);
      BeforeOf(Digits(a), '|', e);
      BeforeOf(Digits(b), '|', f);
      DigitsInjective(a, b);
    }
  }

  /** The first topic, its subscription id and a part of its event id make up the second topic. */
  ghost predicate Absorbs(t: string, a: nat, e: string, u: string, b: nat, f: string) {
    || (u == t + "|" + Digits(a) && e == Digits(b) + "|" + f)
    || exists x :: u == t + "|" + Digits(a) + "|" + x && e == x + "|" + Digits(b) + "|" + f
  }

  /** Keys of two topics coincide exactly when one topic absorbs the other and its subscription id. */
  lemma KeysMeetIff(t: string, a: nat, e: string, u: string, b: nat, f: string)
    ensures Key(t, a, e) == Key(u, b, f) <==> (t == u && a == b && e == f) || Absorbs(t, a, e, u, b, f) || Absorbs(u, b, f, t, a, e)
  {
    hide Digits;
    if Key(t, a, e) == Key(u, b, f) {
      if |t| == |u| {
        assert Key(t, a, e)[..|t|] == t && Key(u, b, f)[..|u|] == u;
        KeyInjective(t, a, e, b, f);
      } else if |t| < |u| {
        KeyAbsorbs(t, a, e, u, b, f);
      } else {
        KeyAbsorbs(u, b, f, t, a, e);
      }
    }
    if Absorbs(t, a, e, u, b, f) { AbsorbedKey(t, a, e, u, b, f); }
    if Absorbs(u, b, f, t, a, e) { AbsorbedKey(u, b, f, t, a, e); }
  }

  lemma AbsorbedKey(t: string, a: nat, e: string, u: string, b: nat, f: string)
    requires Absorbs(t, a, e, u, b, f)
    ensures Key(t, a, e) == Key(u, b, f)
  {
    hide Digits;
    if !(u == t + "|" + Digits(a) && e == Digits(b) + "|" + f) {
      var x :| u == t + "|" + Digits(a) + "|" + x && e == x + "|" + Digits(b) + "|" + f;
      assert Key(t, a, e) == t + "|" + Digits(a) + "|" + (x + "|" + Digits(b) + "|" + f);
    } else {
      assert Key(t, a, e) == t + "|" + Digits(a) + "|" + (Digits(b) + "|" + f);
    }
  }

  /** Two ways to cut a text at a bar, the first of them at its first bar. */
  lemma CutAtBar(d: string, e: string, r: string, g: string)
    requires d + "|" + e == r + "|" + g && '|' !in d
    ensures (r == d && e == g) || (|r| > |d| && r == d + "|" + r[|d| + 1..] && e == r[|d| + 1..] + "|" + g)
  {
    var s, t, n := d + "|" + e, r + "|" + g, |d|;
    assert s[..n] == d && s[n] == '|' && s[n + 1..] == e;
    assert t[..|r|] == r && t[|r|] == '|' && t[|r| + 1..] == g;
    assert forall i :: 0 <= i < n ==> s[i] == d[i] && d[i] != '|';
    if |r| > n {
      assert r[..n] == d && r[n] == '|';
      assert t[n + 1..] == r[n + 1..] + "|" + g;
    }
  }

  lemma KeyAbsorbs(t: string, a: nat, e: string, u: string, b: nat, f: string)
    requires Key(t, a, e) == Key(u, b, f) && |t| < |u|
    ensures Absorbs(t, a, e, u, b, f)
  {
    hide Digits;
    var k, n, x, y := Key(t, a, e), |t|, Digits(a) + "|" + e, Digits(b) + "|" + f;
    assert k == t + "|" + x && k == u + "|" + y;
    assert k[..n] == t && k[n] == '|' && k[..|u|] == u && k[n + 1..] == x;
    var r := u[n + 1..];
    assert u == t + "|" + r;
    assert k[n + 1..] == r + "|" + y;
    DigitsHaveNoBar(a);
    CutAtBar(Digits(a), e, r, y);
    if r != Digits(a) {
      var z := r[|Digits(a)| + 1..];
      assert u == t + "|" + Digits(a) + "|" + z && e == z + "|" + Digits(b) + "|" + f;
    }
  }

  lemma DashSplits(a: string, n: nat, b: string, m: nat)
    requires a + "-" + Digits(n) == b + "-" + Digits(m) && |Digits(n)| <= |Digits(m)|
    ensures a == b && n == m
  {
    hide Digits;
    var s, x, y := a + "-" + Digits(n), Digits(n), Digits(m);
    assert s[|a|] == '-' && s[|a| + 1..] == x && s[..|a|] == a;
    var t := b + "-" + y;
    assert t[|b| + 1..] == y && t[..|b|] == b;
    assert forall i :: |b| < i < |t| ==> t[i] == y[i - |b| - 1];
    assert |a| == |b|;
    DigitsInjective(n, m);
  }

  /**
   Dead letters have one id exactly when they were made at the same attempt and dead-letter topic and event id join to one
   text. So two subscriptions with one dead-letter topic that give up on an event at the same attempt make letters with one id.
   */
  lemma LettersShareIdIff(sub: Subscription, e: Event, n: nat, other: Subscription, f: Event, m: nat)
    ensures Letter(sub, e, n).id == Letter(other, f, m).id
            <==> n == m && sub.deadLetterTopic + "-" + e.id == other.deadLetterTopic + "-" + f.id
    ensures sub.deadLetterTopic == other.deadLetterTopic ==>
              (Letter(sub, e, n).id == Letter(other, f, m).id <==> n == m && e.id == f.id)
  {
    hide Digits;
    var a, b := sub.deadLetterTopic + "-" + e.id, other.deadLetterTopic + "-" + f.id;
    assert Letter(sub, e, n).id == a + "-" + Digits(n) && Letter(other, f, m).id == b + "-" + Digits(m);
    if Letter(sub, e, n).id == Letter(other, f, m).id {
      if |Digits(n)| <= |Digits(m)| { DashSplits(a, n, b, m); } else { DashSplits(b, m, a, n); }
    }
    var k := |sub.deadLetterTopic| + 1;
    assert a[k..] == e.id;
    if sub.deadLetterTopic == other.deadLetterTopic { assert b[k..] == f.id; }
  }

  // ----- What one delivery does to one subscription and event -----

  /** The handler failed and another attempt is left. */
  predicate Retries(a: Attempts, topic: string, sub: Subscription, e: Event, ok: Answers) {
    sub.handled && !ok(sub.id, e) && Count(a, Key(topic, sub.id, e.id)) + 1 < sub.maxAttempts
  }

  /** Some subscription keeps the event in its topic. */
  predicate Stays(a: Attempts, topic: string, subs: seq<Subscription>, e: Event, ok: Answers) {
    exists j :: 0 <= j < |subs| && Retries(a, topic, subs[j], e, ok)
  }

  predicate DistinctSubscriptions(subs: seq<Subscription>) {
    forall i, j :: 0 <= i < j < |subs| ==> subs[i].id != subs[j].id
  }

  predicate DistinctIds(es: seq<Event>) {
    forall i, j :: 0 <= i < j < |es| ==> es[i].id != es[j].id
  }

  /** Counters of other events are not touched. */
  ghost predicate OnlyEvent(a: Attempts, b: Attempts, topic: string, event: string) {
    forall id, other :: other != event ==> Count(b, Key(topic, id, other)) == Count(a, Key(topic, id, other))
  }

  /** The counter of one subscription and event is the only one to change. */
  lemma OneKey(w: Work, topic: string, sub: Subscription, e: Event, ok: Answers, id: nat, other: string)
    requires id != sub.id || other != e.id
    ensures Count(OneSubscription(w, topic, sub, e, ok).0.attempts, Key(topic, id, other)) == Count(w.attempts, Key(topic, id, other))
  {
    hide Key;
    KeyInjective(topic, sub.id, e.id, id, other);
  }

  lemma {:induction false} EventDecided(w: Work, topic: string, subs: seq<Subscription>, e: Event, ok: Answers)
    requires DistinctSubscriptions(subs)
    ensures OneEvent(w, topic, subs, e, ok).1 <==> !Stays(w.attempts, topic, subs, e, ok)
    ensures OnlyEvent(w.attempts, OneEvent(w, topic, subs, e, ok).0.attempts, topic, e.id)
    decreases |subs|
  {
    hide Key;
    if subs != [] {
      var (first, leaves) := OneSubscription(w, topic, subs[0], e, ok);
      EventDecided(first, topic, subs[1..], e, ok);
      forall id, other | other != e.id
        ensures Count(first.attempts, Key(topic, id, other)) == Count(w.attempts, Key(topic, id, other))
      {
        OneKey(w, topic, subs[0], e, ok, id, other);
      }
      forall j | 0 < j < |subs|
        ensures Retries(first.attempts, topic, subs[j], e, ok) <==> Retries(w.attempts, topic, subs[j], e, ok)
      {
        OneKey(w, topic, subs[0], e, ok, subs[j].id, e.id);
      }
      LaterStays(w.attempts, first.attempts, topic, subs, e, ok);
    }
  }

  lemma LaterStays(a: Attempts, b: Attempts, topic: string, subs: seq<Subscription>, e: Event, ok: Answers)
    requires subs != []
    requires forall j :: 0 < j < |subs| ==> (Retries(b, topic, subs[j], e, ok) <==> Retries(a, topic, subs[j], e, ok))
    ensures Stays(a, topic, subs, e, ok) <==> Retries(a, topic, subs[0], e, ok) || Stays(b, topic, subs[1..], e, ok)
  {
    hide Retries;
    var rest := subs[1..];
    if Stays(b, topic, rest, e, ok) {
      var j :| 0 <= j < |rest| && Retries(b, topic, rest[j], e, ok);
      assert Retries(a, topic, subs[j + 1], e, ok);
    }
    if Stays(a, topic, subs, e, ok) && !Retries(a, topic, subs[0], e, ok) {
      var j :| 0 <= j < |subs| && Retries(a, topic, subs[j], e, ok);
      assert Retries(b, topic, rest[j - 1], e, ok);
    }
  }

  lemma SameStays(a: Attempts, b: Attempts, topic: string, subs: seq<Subscription>, e: Event, ok: Answers, event: string)
    requires OnlyEvent(a, b, topic, event) && e.id != event
    ensures Stays(a, topic, subs, e, ok) <==> Stays(b, topic, subs, e, ok)
  {
    hide Key;
    forall j | 0 <= j < |subs| ensures Retries(a, topic, subs[j], e, ok) <==> Retries(b, topic, subs[j], e, ok) {
      assert Count(b, Key(topic, subs[j].id, e.id)) == Count(a, Key(topic, subs[j].id, e.id));
    }
  }

  /** With distinct ids, each event of the batch leaves or stays by the counters at the start of the call. */
  lemma {:induction false} BatchDecided(w: Work, topic: string, subs: seq<Subscription>, es: seq<Event>, ok: Answers, i: nat)
    requires DistinctSubscriptions(subs) && DistinctIds(es) && i < |es|
    ensures es[i].id in AllEvents(w, topic, subs, es, ok).1 <==> !Stays(w.attempts, topic, subs, es[i], ok)
    decreases |es|
  {
    hide Stays, OneEvent, OnlyEvent;
    var (first, leaves) := OneEvent(w, topic, subs, es[0], ok);
    EventDecided(w, topic, subs, es[0], ok);
    LeavingIds(first, topic, subs, es[1..], ok);
    if i == 0 {
      assert es[0].id !in AllEvents(first, topic, subs, es[1..], ok).1;
    } else {
      BatchDecided(first, topic, subs, es[1..], ok, i - 1);
      SameStays(w.attempts, first.attempts, topic, subs, es[i], ok, es[0].id);
      assert es[0].id != es[i].id;
    }
  }

  /** Only ids of the batch leave. */
  lemma {:induction false} LeavingIds(w: Work, topic: string, subs: seq<Subscription>, es: seq<Event>, ok: Answers)
    ensures forall id :: id in AllEvents(w, topic, subs, es, ok).1 ==> exists i :: 0 <= i < |es| && es[i].id == id
    decreases |es|
  {
    hide OneEvent;
    if es != [] {
      var (first, leaves) := OneEvent(w, topic, subs, es[0], ok);
      LeavingIds(first, topic, subs, es[1..], ok);
      forall id | id in AllEvents(w, topic, subs, es, ok).1 ensures exists i :: 0 <= i < |es| && es[i].id == id {
        if id in AllEvents(first, topic, subs, es[1..], ok).1 {
          var i :| 0 <= i < |es[1..]| && es[1..][i].id == id;
          assert es[i + 1].id == id;
        } else {
          assert es[0].id == id;
        }
      }
    }
  }

  // ----- The dead letters of a delivery -----

  /** The handler failed and this was the last attempt. */
  predicate GivesUp(a: Attempts, topic: string, sub: Subscription, e: Event, ok: Answers) {
    sub.handled && !ok(sub.id, e) && Count(a, Key(topic, sub.id, e.id)) + 1 >= sub.maxAttempts
  }

  /** One letter for each subscription that gives up on the event, in the order of the subscriptions. */
  function EventLetters(a: Attempts, topic: string, subs: seq<Subscription>, e: Event, ok: Answers): seq<Event> {
    if subs == [] then []
    else (if GivesUp(a, topic, subs[0], e, ok) then [Letter(subs[0], e, Count(a, Key(topic, subs[0].id, e.id)) + 1)] else [])
         + EventLetters(a, topic, subs[1..], e, ok)
  }

  /** The letters of all events, in the order of the events. */
  function BatchLetters(a: Attempts, topic: string, subs: seq<Subscription>, es: seq<Event>, ok: Answers): seq<Event> {
    if es == [] then [] else EventLetters(a, topic, subs, es[0], ok) + BatchLetters(a, topic, subs, es[1..], ok)
  }

  lemma {:induction false} SameEventLetters(a: Attempts, b: Attempts, topic: string, subs: seq<Subscription>, e: Event, ok: Answers)
    requires forall j :: 0 <= j < |subs| ==> Count(a, Key(topic, subs[j].id, e.id)) == Count(b, Key(topic, subs[j].id, e.id))
    ensures EventLetters(a, topic, subs, e, ok) == EventLetters(b, topic, subs, e, ok)
    decreases |subs|
  {
    hide Key, Letter;
    if subs != [] {
      assert Count(a, Key(topic, subs[0].id, e.id)) == Count(b, Key(topic, subs[0].id, e.id));
      forall j | 0 <= j < |subs[1..]|
        ensures Count(a, Key(topic, subs[1..][j].id, e.id)) == Count(b, Key(topic, subs[1..][j].id, e.id))
      {
        assert subs[1..][j] == subs[j + 1];
      }
      SameEventLetters(a, b, topic, subs[1..], e, ok);
    }
  }

  lemma {:induction false} SameBatchLetters(
    a: Attempts, b: Attempts, topic: string, subs: seq<Subscription>, es: seq<Event>, ok: Answers, event: string)
    requires OnlyEvent(a, b, topic, event) && forall i :: 0 <= i < |es| ==> es[i].id != event
    ensures BatchLetters(a, topic, subs, es, ok) == BatchLetters(b, topic, subs, es, ok)
    decreases |es|
  {
    hide Key, EventLetters;
    if es != [] {
      SameEventLetters(a, b, topic, subs, es[0], ok);
      SameBatchLetters(a, b, topic, subs, es[1..], ok, event);
    }
  }

  lemma {:induction false} EventLettersAre(w: Work, topic: string, subs: seq<Subscription>, e: Event, ok: Answers)
    requires DistinctSubscriptions(subs)
    ensures OneEvent(w, topic, subs, e, ok).0.letters == w.letters + EventLetters(w.attempts, topic, subs, e, ok)
    decreases |subs|
  {
    hide Key, Letter;
    if subs != [] {
      var (first, leaves) := OneSubscription(w, topic, subs[0], e, ok);
      EventLettersAre(first, topic, subs[1..], e, ok);
      forall j | 0 <= j < |subs[1..]|
        ensures Count(first.attempts, Key(topic, subs[1..][j].id, e.id)) == Count(w.attempts, Key(topic, subs[1..][j].id, e.id))
      {
        assert subs[1..][j] == subs[j + 1];
        OneKey(w, topic, subs[0], e, ok, subs[j + 1].id, e.id);
      }
      SameEventLetters(first.attempts, w.attempts, topic, subs[1..], e, ok);
    }
  }

  /** A delivery makes exactly one letter for each taken event and each subscription that gives up on it, in order. */
  lemma {:induction false} BatchLettersAre(w: Work, topic: string, subs: seq<Subscription>, es: seq<Event>, ok: Answers)
    requires DistinctSubscriptions(subs) && DistinctIds(es)
    ensures AllEvents(w, topic, subs, es, ok).0.letters == w.letters + BatchLetters(w.attempts, topic, subs, es, ok)
    decreases |es|
  {
    hide Key, OneEvent, EventLetters, OnlyEvent;
    if es != [] {
      var (first, leaves) := OneEvent(w, topic, subs, es[0], ok);
      EventLettersAre(w, topic, subs, es[0], ok);
      EventDecided(w, topic, subs, es[0], ok);
      BatchLettersAre(first, topic, subs, es[1..], ok);
      forall i | 0 <= i < |es[1..]| ensures es[1..][i].id != es[0].id { assert es[1..][i] == es[i + 1]; }
      SameBatchLetters(w.attempts, first.attempts, topic, subs, es[1..], ok, es[0].id);
    }
  }

  /** What a dead letter is: the event's key and payload, under the dead-letter topic and an id made of topic, id and attempt. */
  predicate IsLetter(x: Event, sub: Subscription, e: Event, attempts: nat) {
    && x.topic == sub.deadLetterTopic && x.key == e.key && x.payload == e.payload
    && x.id == sub.deadLetterTopic + "-" + e.id + "-" + Digits(attempts)
  }

  /** There is a letter for every subscription that gives up on the event, and no other. */
  ghost predicate LettersFor(letters: seq<Event>, a: Attempts, topic: string, subs: seq<Subscription>, e: Event, ok: Answers) {
    && (forall j :: 0 <= j < |subs| && GivesUp(a, topic, subs[j], e, ok) ==>
          HasLetter(letters, subs[j], e, Count(a, Key(topic, subs[j].id, e.id)) + 1))
    && (forall i :: 0 <= i < |letters| ==> LetterOfSome(letters[i], a, topic, subs, e, ok))
  }

  predicate HasLetter(letters: seq<Event>, sub: Subscription, e: Event, attempts: nat) {
    exists i :: 0 <= i < |letters| && IsLetter(letters[i], sub, e, attempts)
  }

  predicate LetterOfSome(x: Event, a: Attempts, topic: string, subs: seq<Subscription>, e: Event, ok: Answers) {
    exists j :: 0 <= j < |subs| && GivesUp(a, topic, subs[j], e, ok)
                && IsLetter(x, subs[j], e, Count(a, Key(topic, subs[j].id, e.id)) + 1)
  }

  lemma LetterByFields(sub: Subscription, e: Event, n: nat)
    ensures IsLetter(Letter(sub, e, n), sub, e, n)
  {}

  lemma {:induction false} GivenUpHasLetter(a: Attempts, topic: string, subs: seq<Subscription>, e: Event, ok: Answers, j: nat)
    requires j < |subs| && GivesUp(a, topic, subs[j], e, ok)
    ensures HasLetter(EventLetters(a, topic, subs, e, ok), subs[j], e, Count(a, Key(topic, subs[j].id, e.id)) + 1)
    decreases |subs|
  {
    hide Key, GivesUp, IsLetter, Letter;
    var n, all := Count(a, Key(topic, subs[j].id, e.id)) + 1, EventLetters(a, topic, subs, e, ok);
    if j == 0 {
      LetterByFields(subs[0], e, n);
      assert all[0] == Letter(subs[0], e, n);
    } else {
      var rest := EventLetters(a, topic, subs[1..], e, ok);
      GivenUpHasLetter(a, topic, subs[1..], e, ok, j - 1);
      var i :| 0 <= i < |rest| && IsLetter(rest[i], subs[j], e, n);
      assert all[|all| - |rest| + i] == rest[i];
    }
  }

  lemma {:induction false} LetterHasGivenUp(a: Attempts, topic: string, subs: seq<Subscription>, e: Event, ok: Answers, i: nat)
    requires i < |EventLetters(a, topic, subs, e, ok)|
    ensures LetterOfSome(EventLetters(a, topic, subs, e, ok)[i], a, topic, subs, e, ok)
    decreases |subs|
  {
    hide Key, GivesUp, IsLetter, Letter;
    var rest, all := EventLetters(a, topic, subs[1..], e, ok), EventLetters(a, topic, subs, e, ok);
    var n := |all| - |rest|;
    if i < n {
      LetterByFields(subs[0], e, Count(a, Key(topic, subs[0].id, e.id)) + 1);
    } else {
      LetterHasGivenUp(a, topic, subs[1..], e, ok, i - n);
      assert all[i] == rest[i - n];
      var j :| 0 <= j < |subs[1..]| && GivesUp(a, topic, subs[1..][j], e, ok)
               && IsLetter(rest[i - n], subs[1..][j], e, Count(a, Key(topic, subs[1..][j].id, e.id)) + 1);
      assert subs[j + 1] == subs[1..][j];
    }
  }

  lemma EventLettersByFields(a: Attempts, topic: string, subs: seq<Subscription>, e: Event, ok: Answers)
    ensures LettersFor(EventLetters(a, topic, subs, e, ok), a, topic, subs, e, ok)
  {
    hide Key, GivesUp, HasLetter, LetterOfSome, EventLetters;
    var all := EventLetters(a, topic, subs, e, ok);
    forall j | 0 <= j < |subs| && GivesUp(a, topic, subs[j], e, ok)
      ensures HasLetter(all, subs[j], e, Count(a, Key(topic, subs[j].id, e.id)) + 1)
    {
      GivenUpHasLetter(a, topic, subs, e, ok, j);
    }
    forall i | 0 <= i < |all| ensures LetterOfSome(all[i], a, topic, subs, e, ok) {
      LetterHasGivenUp(a, topic, subs, e, ok, i);
    }
  }

  // ----- The counters after a delivery -----

  /** What becomes of the counter of a subscription and an event that was handed to it. */
  function NewCount(a: Attempts, topic: string, sub: Subscription, e: Event, ok: Answers): nat {
    var n := Count(a, Key(topic, sub.id, e.id));
    if !sub.handled then n else if Retries(a, topic, sub, e, ok) then n + 1 else 0
  }

  lemma {:induction false} EventCounts(w: Work, topic: string, subs: seq<Subscription>, e: Event, ok: Answers, j: nat)
    requires DistinctSubscriptions(subs) && j < |subs|
    ensures Count(OneEvent(w, topic, subs, e, ok).0.attempts, Key(topic, subs[j].id, e.id)) == NewCount(w.attempts, topic, subs[j], e, ok)
    decreases |subs|
  {
    hide Key, Letter;
    var (first, leaves) := OneSubscription(w, topic, subs[0], e, ok);
    if j > 0 {
      OneKey(w, topic, subs[0], e, ok, subs[j].id, e.id);
      EventCounts(first, topic, subs[1..], e, ok, j - 1);
    } else {
      LaterSubscriptions(first, topic, subs[1..], e, ok, subs[0].id);
    }
  }

  lemma {:induction false} LaterSubscriptions(w: Work, topic: string, subs: seq<Subscription>, e: Event, ok: Answers, id: nat)
    requires forall j :: 0 <= j < |subs| ==> subs[j].id != id
    ensures Count(OneEvent(w, topic, subs, e, ok).0.attempts, Key(topic, id, e.id)) == Count(w.attempts, Key(topic, id, e.id))
    decreases |subs|
  {
    hide Key, OneSubscription;
    if subs != [] {
      OneKey(w, topic, subs[0], e, ok, id, e.id);
      LaterSubscriptions(OneSubscription(w, topic, subs[0], e, ok).0, topic, subs[1..], e, ok, id);
    }
  }

  /** Each taken event's counters move by the counters at the start of the call; those of other events stay. */
  lemma {:induction false} BatchCounts(w: Work, topic: string, subs: seq<Subscription>, es: seq<Event>, ok: Answers, e: Event, j: nat)
    requires DistinctSubscriptions(subs) && DistinctIds(es) && j < |subs|
    requires forall i :: 0 <= i < |es| && es[i].id == e.id ==> es[i] == e
    ensures Count(AllEvents(w, topic, subs, es, ok).0.attempts, Key(topic, subs[j].id, e.id))
            == if e in es then NewCount(w.attempts, topic, subs[j], e, ok) else Count(w.attempts, Key(topic, subs[j].id, e.id))
    decreases |es|
  {
    hide Key, OneEvent, OnlyEvent;
    if es != [] {
      var first := OneEvent(w, topic, subs, es[0], ok).0;
      EventDecided(w, topic, subs, es[0], ok);
      BatchCounts(first, topic, subs, es[1..], ok, e, j);
      if es[0].id == e.id {
        EventCounts(w, topic, subs, e, ok, j);
        forall i | 0 <= i < |es[1..]| ensures es[1..][i] != e { assert es[1..][i] == es[i + 1]; }
        assert e !in es[1..];
      } else {
        OtherCount(w.attempts, first.attempts, topic, es[0].id, subs[j].id, e.id);
        assert e in es <==> e in es[1..];
      }
    }
  }

  lemma OtherCount(a: Attempts, b: Attempts, topic: string, event: string, id: nat, other: string)
    requires OnlyEvent(a, b, topic, event) && other != event
    ensures Count(b, Key(topic, id, other)) == Count(a, Key(topic, id, other))
  {
    hide Key, Count;
  }

  lemma {:induction false} RemainingIs(q: seq<Event>, ids: seq<string>)
    ensures Sub(Remaining(q, ids), q)
    ensures forall e :: e in Remaining(q, ids) <==> e in q && e.id !in ids
    decreases |q|
  {
    if q != [] {
      RemainingIs(q[1..], ids);
      assert q == [q[0]] + q[1..];
      if q[0].id in ids {
        assert [] + Remaining(q[1..], ids) == Remaining(q[1..], ids);
        SubSkip(Remaining(q[1..], ids), q[1..], q[0]);
      } else {
        SubFront(Remaining(q[1..], ids), q[1..], q[0]);
      }
    }
  }

  // ----- One event handed to all subscriptions -----

  /** Answered well, or out of attempts, or without a handler: as far as the subscription goes, the event may leave. */
  predicate Settled(a: Attempts, topic: string, sub: Subscription, e: Event, ok: Answers) {
    !sub.handled || ok(sub.id, e) || Count(a, Key(topic, sub.id, e.id)) + 1 >= sub.maxAttempts
  }

  /** Whether the event leaves, the new counters and the letters, each by the old counters. */
  ghost predicate HandedOver(a: Attempts, b: Attempts, topic: string, subs: seq<Subscription>, e: Event, ok: Answers,
                             leaves: bool, letters: seq<Event>) {
    && (leaves <==> forall j :: 0 <= j < |subs| ==> Settled(a, topic, subs[j], e, ok))
    && (forall j :: 0 <= j < |subs| ==>
          Count(b, Key(topic, subs[j].id, e.id))
          == var n := Count(a, Key(topic, subs[j].id, e.id));
             if !subs[j].handled then n else if Settled(a, topic, subs[j], e, ok) then 0 else n + 1)
    && OnlyEvent(a, b, topic, e.id)
    && LettersFor(letters, a, topic, subs, e, ok)
  }

  lemma OneEventHandsOver(w: Work, topic: string, subs: seq<Subscription>, e: Event, ok: Answers)
    requires DistinctSubscriptions(subs)
    ensures var (r, leaves) := OneEvent(w, topic, subs, e, ok);
            w.letters <= r.letters && HandedOver(w.attempts, r.attempts, topic, subs, e, ok, leaves, r.letters[|w.letters|..])
  {
    hide Key, OneEvent, EventLetters, LettersFor, OnlyEvent;
    EventDecided(w, topic, subs, e, ok);
    EventLettersAre(w, topic, subs, e, ok);
    EventLettersByFields(w.attempts, topic, subs, e, ok);
    var (r, leaves) := OneEvent(w, topic, subs, e, ok);
    assert r.letters[|w.letters|..] == EventLetters(w.attempts, topic, subs, e, ok);
    forall j | 0 <= j < |subs|
      ensures Count(r.attempts, Key(topic, subs[j].id, e.id)) == NewCount(w.attempts, topic, subs[j], e, ok)
    {
      EventCounts(w, topic, subs, e, ok, j);
    }
    forall j | 0 <= j < |subs| ensures Settled(w.attempts, topic, subs[j], e, ok) <==> !Retries(w.attempts, topic, subs[j], e, ok) {
    }
  }

  // ----- The broker object -----

  predicate HandlerFails(subs: seq<Subscription>, es: seq<Event>, ok: Answers) {
    exists i, j :: 0 <= i < |es| && 0 <= j < |subs| && subs[j].handled && !ok(subs[j].id, es[i])
  }

  class InMemoryBroker {
    var queues: map<string, seq<Event>>
    var subscriptions: map<string, seq<Subscription>>
    var attempts: Attempts
    var nextSequence: nat
    var nextSubscription: nat

    function View(): State
      reads this
    {
      State(queues, subscriptions, attempts, nextSequence, nextSubscription)
    }

    constructor ()
      ensures View() == State(map[], map[], map[], 1, 1)
    {
      queues, subscriptions, attempts, nextSequence, nextSubscription := map[], map[], map[], 1, 1;
    }

    method PublishEvent(e: Event) returns (status: Status)
      modifies this
      ensures status == if e.topic == "" then InvalidArgument else Ok
      ensures View() == Publish(old(View()), e)
      ensures status == Ok ==>
                var id := if e.id == "" then e.topic + "-" + Digits(old(nextSequence)) else e.id;
                && View() == old(View()).(queues := queues, nextSequence := old(nextSequence) + 1)
                && queues == old(queues)[e.topic := Queue(old(View()), e.topic) + [Event(id, e.topic, e.key, e.payload, old(nextSequence))]]
      ensures status != Ok ==> View() == old(View())
    {
      if e.topic == "" { return InvalidArgument; }
      var item := e.(id := if e.id == "" then e.topic + "-" + Digits(nextSequence) else e.id, sequence := nextSequence);
      nextSequence := nextSequence + 1;
      queues := queues[item.topic := (if item.topic in queues then queues[item.topic] else []) + [item]];
      return Ok;
    }

    method SubscribeTo(topic: string, handled: bool, maxAttempts: nat, deadLetterTopic: string) returns (id: nat)
      modifies this
      ensures View() == Subscribe(old(View()), topic, handled, maxAttempts, deadLetterTopic) && id == old(nextSubscription)
      ensures View() == old(View()).(subscriptions := subscriptions, nextSubscription := old(nextSubscription) + 1)
      ensures exists sub :: subscriptions == old(subscriptions)[topic := SubscriptionsOf(old(View()), topic) + [sub]]
                            && sub.id == id && sub.handled == handled
                            && (if maxAttempts >= 1 then sub.maxAttempts == maxAttempts else sub.maxAttempts == 1)
                            && sub.deadLetterTopic == (if deadLetterTopic != "" then deadLetterTopic else topic + ".DLQ")
    {
      id := nextSubscription;
      nextSubscription := nextSubscription + 1;
      var letters := if deadLetterTopic == "" then topic + ".DLQ" else deadLetterTopic;
      var subs := if topic in subscriptions then subscriptions[topic] else [];
      subscriptions := subscriptions[topic := subs + [Subscription(id, handled, if maxAttempts == 0 then 1 else maxAttempts, letters)]];
    }

    /** The inner loop of `deliver`: every subscription gets the event. */
    method HandOver(topic: string, subs: seq<Subscription>, e: Event, ok: Answers, letters: seq<Event>)
      returns (leaves: bool, failed: bool, letters': seq<Event>)
      modifies this`attempts
      ensures (Work(attempts, letters'), leaves) == OneEvent(Work(old(attempts), letters), topic, subs, e, ok)
      ensures failed <==> HandlerFails(subs, [e], ok)
      ensures DistinctSubscriptions(subs) ==>
                letters <= letters' && HandedOver(old(attempts), attempts, topic, subs, e, ok, leaves, letters'[|letters|..])
    {
      hide Key, Letter, HandedOver;
      leaves, failed, letters' := true, false, letters;
      for j := 0 to |subs|
        invariant OneEvent(Work(old(attempts), letters), topic, subs, e, ok)
                  == (OneEvent(Work(attempts, letters'), topic, subs[j..], e, ok).0,
                      leaves && OneEvent(Work(attempts, letters'), topic, subs[j..], e, ok).1)
        invariant failed <==> HandlerFails(subs[..j], [e], ok)
      {
        var sub := subs[j];
        assert subs[j..][1..] == subs[j + 1..];
        MoreSubscriptions(subs, j, e, ok);
        if !sub.handled { continue; }
        var k := Key(topic, sub.id, e.id);
        if ok(sub.id, e) {
          attempts := attempts - {k};
          continue;
        }
        failed := true;
        var n := Count(attempts, k) + 1;
        if n >= sub.maxAttempts {
          attempts := attempts - {k};
          letters' := letters' + [Letter(sub, e, n)];
        } else {
          attempts := attempts[k := n];
          leaves := false;
        }
      }
      assert subs[..|subs|] == subs;
      if DistinctSubscriptions(subs) { OneEventHandsOver(Work(old(attempts), letters), topic, subs, e, ok); }
    }

    /** `deliver`. `arriving` are the events others publish while the handlers run, outside the lock. */
    method DeliverTopic(topic: string, maxEvents: nat, ok: Answers, arriving: seq<Event>) returns (status: Status)
      modifies this
      ensures View() == Deliver(old(View()), topic, maxEvents, ok, arriving)
      ensures var s := old(View());
              status == if topic !in s.queues then Ok
                        else if SubscriptionsOf(s, topic) == [] then FailedPrecondition
                        else if HandlerFails(SubscriptionsOf(s, topic), Taken(s, topic, maxEvents), ok) then Internal else Ok
    {
      hide OneEvent, Remaining, HandlerFails;
      var subs, events := SubscriptionsOf(View(), topic), Taken(View(), topic, maxEvents);
      if topic !in queues || subs == [] {
        status := if topic !in queues then Ok else FailedPrecondition;
        PublishArriving(arriving);
        return status;
      }
      status := Ok;
      var delivered: seq<string>, letters: seq<Event> := [], [];
      ghost var all := AllEvents(Work(attempts, []), topic, subs, events, ok);
      assert events[0..] == events && [] + all.1 == all.1;
      NoFailure(subs, ok);
      for i := 0 to |events|
        invariant queues == old(queues) && subscriptions == old(subscriptions)
        invariant nextSequence == old(nextSequence) && nextSubscription == old(nextSubscription)
        invariant all.0 == AllEvents(Work(attempts, letters), topic, subs, events[i..], ok).0
        invariant all.1 == delivered + AllEvents(Work(attempts, letters), topic, subs, events[i..], ok).1
        invariant status == if HandlerFails(subs, events[..i], ok) then Internal else Ok
      {
        assert events[i..][1..] == events[i + 1..];
        var leaves, failed;
        ghost var before := delivered;
        leaves, failed, letters := HandOver(topic, subs, events[i], ok, letters);
        ghost var later := AllEvents(Work(attempts, letters), topic, subs, events[i + 1..], ok).1;
        assert before + ([events[i].id] + later) == before + [events[i].id] + later && before + ([] + later) == before + later;
        if failed { status := Internal; }
        if leaves { delivered := delivered + [events[i].id]; }
        MoreEvents(subs, events, i, ok);
      }
      assert events[..|events|] == events;
      assert AllEvents(Work(attempts, letters), topic, subs, [], ok) == (Work(attempts, letters), []);
      assert events[|events|..] == [] && delivered + [] == delivered;
      assert all == (Work(attempts, letters), delivered);
      PublishAllAttempts(old(View()), attempts, arriving);
      PublishArriving(arriving);
      if delivered != [] || letters != [] {
        queues := queues[topic := Remaining(Queue(View(), topic), delivered)];
        PushAll(letters);
      }
    }

    method PublishArriving(arriving: seq<Event>)
      modifies this
      ensures View() == PublishAll(old(View()), arriving)
    {
      for i := 0 to |arriving|
        invariant PublishAll(View(), arriving[i..]) == PublishAll(old(View()), arriving)
      {
        assert arriving[i..][1..] == arriving[i + 1..];
        var _ := PublishEvent(arriving[i]);
      }
    }

    /** The dead letters get their sequence numbers as they are queued. */
    method PushAll(letters: seq<Event>)
      modifies this
      ensures View() == PushLetters(old(View()), letters)
    {
      for i := 0 to |letters|
        invariant PushLetters(View(), letters[i..]) == PushLetters(old(View()), letters)
      {
        assert letters[i..][1..] == letters[i + 1..];
        var letter := letters[i].(sequence := nextSequence);
        nextSequence := nextSequence + 1;
        queues := queues[letter.topic := (if letter.topic in queues then queues[letter.topic] else []) + [letter]];
      }
    }
  }

  lemma MoreSubscriptions(subs: seq<Subscription>, j: nat, e: Event, ok: Answers)
    requires j < |subs|
    ensures HandlerFails(subs[..j + 1], [e], ok) <==> HandlerFails(subs[..j], [e], ok) || (subs[j].handled && !ok(subs[j].id, e))
  {
    var a, b := subs[..j], subs[..j + 1];
    assert b == a + [subs[j]];
    if HandlerFails(a, [e], ok) {
      var i, k :| 0 <= i < |[e]| && 0 <= k < |a| && a[k].handled && !ok(a[k].id, [e][i]);
      assert b[k] == a[k];
    }
    if subs[j].handled && !ok(subs[j].id, e) { assert b[j] == subs[j] && [e][0] == e; }
  }

  lemma MoreEvents(subs: seq<Subscription>, es: seq<Event>, i: nat, ok: Answers)
    requires i < |es|
    ensures HandlerFails(subs, es[..i + 1], ok) <==> HandlerFails(subs, es[..i], ok) || HandlerFails(subs, [es[i]], ok)
  {
    var a, b := es[..i], es[..i + 1];
    assert b == a + [es[i]];
    if HandlerFails(subs, a, ok) {
      var k, j :| 0 <= k < |a| && 0 <= j < |subs| && subs[j].handled && !ok(subs[j].id, a[k]);
      assert b[k] == a[k];
    }
    if HandlerFails(subs, [es[i]], ok) {
      var k, j :| 0 <= k < |[es[i]]| && 0 <= j < |subs| && subs[j].handled && !ok(subs[j].id, [es[i]][k]);
      assert b[i] == es[i];
    }
    if HandlerFails(subs, b, ok) {
      var k, j :| 0 <= k < |b| && 0 <= j < |subs| && subs[j].handled && !ok(subs[j].id, b[k]);
      if k < i { assert a[k] == b[k]; } else { assert [es[i]][0] == b[k]; }
    }
  }

  lemma NoFailure(subs: seq<Subscription>, ok: Answers)
    ensures !HandlerFails(subs, [], ok)
  {}

  /** Publishing does not look at the counters. */
  lemma {:induction false} PublishAllAttempts(s: State, attempts: Attempts, es: seq<Event>)
    ensures PublishAll(s.(attempts := attempts), es) == PublishAll(s, es).(attempts := attempts)
    decreases |es|
  {
    if es != [] { PublishAllAttempts(Publish(s, es[0]), attempts, es[1..]); }
  }
}
