/**
 The durable outbox: appenders add events under the lock, one drainer publishes them in batches without it. Each
 critical section and each publish is one atomic step; a crash may fall between any two.
 */
module Outbox {
  import opened Bytes
  import opened Common
  import opened Subsequence
  import opened Text
  import opened Wal
  import opened OutboxCodec

  /** A drain in progress: what failed so far and what is still to be published. */
  datatype Drain = Drain(failed: seq<Event>, batch: seq<Event>)

  /**
   `file`, `pending` and `drain` are the program's; the rest is history: the events whose records the
   file holds, all events ever written to it, those acknowledged to appenders and those published.
   */
  datatype State = State(
    file: seq<byte>, pending: seq<Event>, drain: Option<Drain>,
    stored: seq<Event>, written: seq<Event>, acked: seq<Event>, published: seq<Event>)

  datatype Step =
    | Append(event: Event)
    | AppendUnacked(event: Event)
    | Take(limit: nat)
    | Publish(ok: bool)
    | Finish(rewritten: bool)
    | Reopen

  predicate Enabled(s: State, e: Step) {
    match e
    case Append(event) => Writable(event)
    case AppendUnacked(event) => Writable(event)
    case Take(limit) => s.drain.None? && limit > 0
    case Publish(_) => s.drain.Some? && s.drain.value.batch != []
    case Finish(_) => s.drain.Some? && s.drain.value.batch == []
    case Reopen => true
  }

  function Least(a: nat, b: nat): nat {
    if a <= b then a else b
  }

  function Do(crc: Checksum, s: State, e: Step): State
    requires Enabled(s, e)
  {
    match e
    case Append(event) =>
      s.(file := s.file + Record(crc, event), pending := s.pending + [event],
         stored := s.stored + [event], written := s.written + [event], acked := s.acked + [event])
    case AppendUnacked(event) =>
      s.(file := s.file + Record(crc, event), stored := s.stored + [event], written := s.written + [event])
    case Take(limit) =>
      var n := Least(limit, |s.pending|);
      s.(pending := s.pending[n..], drain := Some(Drain([], s.pending[..n])))
    case Publish(ok) =>
      var d := s.drain.value;
      if ok then s.(drain := Some(Drain(d.failed, d.batch[1..])), published := s.published + [d.batch[0]])
      else s.(drain := Some(Drain(d.failed + [d.batch[0]], d.batch[1..])))
    case Finish(rewritten) =>
      var back := s.drain.value.failed + s.pending;
      if rewritten then s.(pending := back, drain := None, file := FileOf(crc, back), stored := back)
      else s.(pending := back, drain := None)
    case Reopen =>
      match OpenFile(crc, s.file)
      case None => s.(pending := [], drain := None)
      case Some(events) => s.(pending := events, drain := None)
  }

  /** Acknowledged and not yet published, in the order they will be tried. */
  function Undelivered(s: State): seq<Event> {
    match s.drain
    case None => s.pending
    case Some(d) => d.failed + d.batch + s.pending
  }

  ghost predicate Inv(crc: Checksum, s: State) {
    && AllWritable(s.written)
    && s.file == FileOf(crc, s.stored)
    && Sub(Undelivered(s), s.stored)
    && Sub(s.stored, s.written)
    && (forall e :: e in s.acked ==> e in s.published || e in Undelivered(s))
    && (forall e :: e in s.published || e in s.acked ==> e in s.written)
  }

  lemma {:induction false} EncodeAppend(crc: Checksum, es: seq<Event>, e: Event)
    ensures FileOf(crc, es + [e]) == FileOf(crc, es) + Record(crc, e)
    decreases |es|
  {
    hide Record;
    if es == [] {
      assert es + [e] == [e] && [e][1..] == [];
    } else {
      assert (es + [e])[1..] == es[1..] + [e];
      EncodeAppend(crc, es[1..], e);
    }
  }

  lemma {:induction false} SubIsWritable(es: seq<Event>, all: seq<Event>)
    requires Sub(es, all) && AllWritable(all)
    ensures AllWritable(es)
  {
    hide Writable, Sub;
    forall i | 0 <= i < |es| ensures Writable(es[i]) {
      SubMember(es, all, es[i]);
    }
  }

  /** The file always opens to the events it stores. */
  lemma FileOpens(crc: Checksum, s: State)
    requires Inv(crc, s)
    ensures OpenFile(crc, s.file) == Some(s.stored)
  {
    hide Sub, OpenFile, FileOf, Writable;
    SubIsWritable(s.stored, s.written);
    OpenInvertsWrite(crc, s.stored);
  }

  lemma SubGrows(a: seq<Event>, b: seq<Event>, e: Event)
    requires Sub(a, b)
    ensures Sub(a + [e], b + [e]) && Sub(a, b + [e])
  {
    hide Sub;
    SubSelf([e]);
    SubConcat(a, b, [e], [e]);
    SubNothing([e]);
    SubConcat(a, b, [], [e]);
    assert a + [] == a;
  }

  lemma SubNothing(b: seq<Event>)
    ensures Sub([], b)
  {}

  /** What each step but a restart does to the events still to be delivered. */
  lemma UndeliveredStep(crc: Checksum, s: State, e: Step)
    requires Enabled(s, e) && !e.Reopen?
    ensures e.Append? ==> Undelivered(Do(crc, s, e)) == Undelivered(s) + [e.event]
    ensures !e.Append? && e != Publish(true) ==> Undelivered(Do(crc, s, e)) == Undelivered(s)
    ensures e == Publish(true) ==>
              var d := s.drain.value;
              var tail := d.batch[1..] + s.pending;
              && Undelivered(s) == d.failed + ([d.batch[0]] + tail)
              && Undelivered(Do(crc, s, e)) == d.failed + tail
  {
    hide FileOf, Record, Writable, OpenFile;
    match e
    case Append(event) =>
      if s.drain.Some? {
        var d := s.drain.value;
        assert d.failed + d.batch + (s.pending + [event]) == d.failed + d.batch + s.pending + [event];
      }
    case AppendUnacked(_) =>
    case Take(limit) =>
      var n := Least(limit, |s.pending|);
      assert [] + s.pending[..n] + s.pending[n..] == s.pending;
    case Publish(_) =>
      var d := s.drain.value;
      assert d.batch == [d.batch[0]] + d.batch[1..];
      assert d.failed + [d.batch[0]] + d.batch[1..] == d.failed + d.batch;
      assert d.failed + d.batch[1..] + s.pending == d.failed + (d.batch[1..] + s.pending);
    case Finish(_) =>
      var d := s.drain.value;
      assert d.failed + [] + s.pending == d.failed + s.pending;
  }

  lemma AppendKeepsInv(crc: Checksum, s: State, e: Step)
    requires Inv(crc, s) && Enabled(s, e) && (e.Append? || e.AppendUnacked?)
    ensures Inv(crc, Do(crc, s, e))
  {
    hide Sub, Record, FileOf, Writable;
    EncodeAppend(crc, s.stored, e.event);
    SubGrows(Undelivered(s), s.stored, e.event);
    SubGrows(s.stored, s.written, e.event);
    UndeliveredStep(crc, s, e);
  }

  lemma TakeKeepsInv(crc: Checksum, s: State, e: Step)
    requires Inv(crc, s) && Enabled(s, e) && e.Take?
    ensures Inv(crc, Do(crc, s, e))
  {
    UndeliveredStep(crc, s, e);
    hide Sub, FileOf, Writable, Undelivered;
  }

  /** Publishing takes the first event of the batch out, or moves it behind those that failed before it. */
  lemma PublishKeepsInv(crc: Checksum, s: State, e: Step)
    requires Inv(crc, s) && Enabled(s, e) && e.Publish?
    ensures Inv(crc, Do(crc, s, e))
  {
    hide Sub, FileOf, Writable;
    UndeliveredStep(crc, s, e);
    if e.ok {
      var d, s' := s.drain.value, Do(crc, s, e);
      var first, tail := d.batch[0], d.batch[1..] + s.pending;
      hide Undelivered;
      SubSelf(d.failed);
      SubSelf(tail);
      SubSkip(tail, tail, first);
      SubConcat(d.failed, d.failed, tail, [first] + tail);
      SubOfSub(Undelivered(s'), Undelivered(s), s.stored);
      assert first in Undelivered(s);
      SubMember(Undelivered(s), s.stored, first);
      SubMember(s.stored, s.written, first);
    }
  }

  lemma FinishKeepsInv(crc: Checksum, s: State, e: Step)
    requires Inv(crc, s) && Enabled(s, e) && e.Finish?
    ensures Inv(crc, Do(crc, s, e))
  {
    hide Sub, FileOf, Writable;
    UndeliveredStep(crc, s, e);
    SubSelf(Undelivered(s));
    SubOfSub(Undelivered(s), s.stored, s.written);
  }

  lemma ReopenKeepsInv(crc: Checksum, s: State)
    requires Inv(crc, s)
    ensures Inv(crc, Do(crc, s, Reopen)) && Do(crc, s, Reopen).pending == s.stored
  {
    FileOpens(crc, s);
    hide Sub, FileOf, Writable, OpenFile;
    SubSelf(s.stored);
    forall e | e in Undelivered(s) ensures e in s.stored { SubMember(Undelivered(s), s.stored, e); }
  }

  lemma StepKeepsInv(crc: Checksum, s: State, e: Step)
    requires Inv(crc, s) && Enabled(s, e)
    ensures Inv(crc, Do(crc, s, e))
  {
    hide Inv, OpenFile, FileOf, Record;
    match e
    case Append(_) => AppendKeepsInv(crc, s, e);
    case AppendUnacked(_) => AppendKeepsInv(crc, s, e);
    case Take(_) => TakeKeepsInv(crc, s, e);
    case Publish(_) => PublishKeepsInv(crc, s, e);
    case Finish(_) => FinishKeepsInv(crc, s, e);
    case Reopen => ReopenKeepsInv(crc, s);
  }

  // ----- Runs -----

  predicate CanRun(crc: Checksum, s: State, es: seq<Step>)
    decreases |es|
  {
    es == [] || (Enabled(s, es[0]) && CanRun(crc, Do(crc, s, es[0]), es[1..]))
  }

  function Run(crc: Checksum, s: State, es: seq<Step>): State
    requires CanRun(crc, s, es)
    decreases |es|
  {
    if es == [] then s else Run(crc, Do(crc, s, es[0]), es[1..])
  }

  const NOTHING: State := State([], [], None, [], [], [], [])

  lemma {:induction false} RunKeepsInv(crc: Checksum, s: State, es: seq<Step>)
    requires Inv(crc, s) && CanRun(crc, s, es)
    ensures Inv(crc, Run(crc, s, es))
    decreases |es|
  {
    hide Inv, Do, Enabled;
    if es != [] {
      StepKeepsInv(crc, s, es[0]);
      RunKeepsInv(crc, Do(crc, s, es[0]), es[1..]);
    }
  }

  /** Until the process restarts, every acknowledged event is published exactly once or still to be delivered. */
  predicate Exact(s: State) {
    multiset(s.acked) == multiset(s.published) + multiset(Undelivered(s))
  }

  lemma OneLess(a: seq<Event>, x: Event, b: seq<Event>)
    ensures multiset(a + ([x] + b)) == multiset(a + b) + multiset{x}
  {}

  lemma OneMore(a: seq<Event>, x: Event)
    ensures multiset(a + [x]) == multiset(a) + multiset{x}
  {}

  /** Each step but a restart moves acknowledged, published and undelivered events together. */
  lemma CountStep(crc: Checksum, s: State, e: Step)
    requires Enabled(s, e) && !e.Reopen?
    ensures var s' := Do(crc, s, e);
            multiset(s'.acked) + (multiset(s.published) + multiset(Undelivered(s)))
            == multiset(s.acked) + (multiset(s'.published) + multiset(Undelivered(s')))
  {
    if e.Append? {
      AppendCounts(crc, s, e);
    } else if e == Publish(true) {
      PublishCounts(crc, s);
    } else {
      UndeliveredStep(crc, s, e);
      hide Undelivered;
    }
  }

  lemma AppendCounts(crc: Checksum, s: State, e: Step)
    requires e.Append? && Enabled(s, e)
    ensures var s' := Do(crc, s, e);
            && multiset(s'.acked) == multiset(s.acked) + multiset{e.event} && s'.published == s.published
            && multiset(Undelivered(s')) == multiset(Undelivered(s)) + multiset{e.event}
  {
    UndeliveredStep(crc, s, e);
    hide Undelivered, Record, Writable;
    OneMore(s.acked, e.event);
    OneMore(Undelivered(s), e.event);
  }

  lemma PublishCounts(crc: Checksum, s: State)
    requires Enabled(s, Publish(true))
    ensures var s', x := Do(crc, s, Publish(true)), s.drain.value.batch[0];
            && s'.acked == s.acked && multiset(s'.published) == multiset(s.published) + multiset{x}
            && multiset(Undelivered(s)) == multiset(Undelivered(s')) + multiset{x}
  {
    UndeliveredStep(crc, s, Publish(true));
    hide Undelivered;
    var d := s.drain.value;
    OneLess(d.failed, d.batch[0], d.batch[1..] + s.pending);
    OneMore(s.published, d.batch[0]);
  }

  lemma Cancel<T>(a: multiset<T>, b: multiset<T>, a': multiset<T>, b': multiset<T>)
    requires a' + b == a + b'
    ensures a == b ==> a' == b'
    ensures a <= b ==> a' <= b'
  {
    forall x ensures a'[x] + b[x] == a[x] + b'[x] { assert (a' + b)[x] == (a + b')[x]; }
  }

  lemma StepKeepsExact(crc: Checksum, s: State, e: Step)
    requires Exact(s) && Enabled(s, e) && !e.Reopen?
    ensures Exact(Do(crc, s, e))
  {
    hide Undelivered, Do;
    CountStep(crc, s, e);
    var s' := Do(crc, s, e);
    Cancel(multiset(s.acked), multiset(s.published) + multiset(Undelivered(s)),
           multiset(s'.acked), multiset(s'.published) + multiset(Undelivered(s')));
  }

  lemma {:induction false} RunIsExact(crc: Checksum, s: State, es: seq<Step>)
    requires Exact(s) && CanRun(crc, s, es) && forall i :: 0 <= i < |es| ==> !es[i].Reopen?
    ensures Exact(Run(crc, s, es))
    decreases |es|
  {
    hide Exact, Do, Enabled;
    if es != [] {
      StepKeepsExact(crc, s, es[0]);
      RunIsExact(crc, Do(crc, s, es[0]), es[1..]);
    }
  }

  /** Each acknowledged event is published, or still to be delivered, at least as often as it was acknowledged. */
  predicate Counted(s: State) {
    multiset(s.acked) <= multiset(s.published) + multiset(Undelivered(s))
  }

  lemma StepKeepsCounted(crc: Checksum, s: State, e: Step)
    requires Inv(crc, s) && Counted(s) && Enabled(s, e)
    ensures Counted(Do(crc, s, e))
  {
    hide Enabled, Writable;
    if e.Reopen? {
      ReopenIsCounted(crc, s);
    } else {
      hide Undelivered, Do, Inv;
      CountStep(crc, s, e);
      var s' := Do(crc, s, e);
      Cancel(multiset(s.acked), multiset(s.published) + multiset(Undelivered(s)),
             multiset(s'.acked), multiset(s'.published) + multiset(Undelivered(s')));
    }
  }

  lemma ReopenIsCounted(crc: Checksum, s: State)
    requires Inv(crc, s) && Counted(s)
    ensures Counted(Do(crc, s, Reopen))
  {
    ReopenedFrom(crc, s);
    hide Undelivered, Do, Inv;
    Larger(multiset(s.acked), multiset(s.published), multiset(Undelivered(s)), multiset(s.stored));
  }

  lemma ReopenedFrom(crc: Checksum, s: State)
    requires Inv(crc, s)
    ensures var s' := Do(crc, s, Reopen);
            && Undelivered(s') == s.stored && s'.acked == s.acked && s'.published == s.published
            && multiset(Undelivered(s)) <= multiset(s.stored)
  {
    hide Sub, FileOf, AllWritable, OpenFile;
    FileOpens(crc, s);
    SubCounts(Undelivered(s), s.stored) by { UndeliveredIsStored(crc, s); }
    hide Inv;
  }

  lemma UndeliveredIsStored(crc: Checksum, s: State)
    requires Inv(crc, s)
    ensures Sub(Undelivered(s), s.stored)
  {
    hide Sub, FileOf, AllWritable, Undelivered;
  }

  lemma Larger<T>(a: multiset<T>, b: multiset<T>, c: multiset<T>, d: multiset<T>)
    requires a <= b + c && c <= d
    ensures a <= b + d
  {}

  lemma {:induction false} RunIsCounted(crc: Checksum, s: State, es: seq<Step>)
    requires Inv(crc, s) && Counted(s) && CanRun(crc, s, es)
    ensures Counted(Run(crc, s, es))
    decreases |es|
  {
    hide Inv, Counted, Do, Enabled;
    if es != [] {
      StepKeepsInv(crc, s, es[0]);
      StepKeepsCounted(crc, s, es[0]);
      RunIsCounted(crc, Do(crc, s, es[0]), es[1..]);
    }
  }

  /**
   In every run, with any appenders, failed publishes, failed rewrites and restarts: the file opens; every
   acknowledged event is published or still to be delivered, and published or in the file, as often as it was
   acknowledged; what is still to be delivered is in the file in the order it was appended; and nothing is
   published that was not written.
   */
  lemma NothingIsLost(crc: Checksum, es: seq<Step>)
    requires CanRun(crc, NOTHING, es)
    ensures var f := Run(crc, NOTHING, es);
            && OpenFile(crc, f.file) == Some(f.stored)
            && multiset(f.acked) <= multiset(f.published) + multiset(Undelivered(f))
            && multiset(f.acked) <= multiset(f.published) + multiset(f.stored)
            && Sub(Undelivered(f), f.stored) && Sub(f.stored, f.written)
            && (forall e :: e in f.published ==> e in f.written)
  {
    hide CanRun, Run;
    RunKeepsInv(crc, NOTHING, es);
    RunIsCounted(crc, NOTHING, es);
    var f := Run(crc, NOTHING, es);
    FileOpens(crc, f);
    hide Sub, OpenFile, FileOf, Writable;
    SubCounts(Undelivered(f), f.stored);
  }

  // ----- Generated ids -----

  function Ascii(s: string): seq<byte> {
    seq(|s|, i requires 0 <= i < |s| => ((s[i] as int) % 256) as byte)
  }

  function ClockAndCount(clock: nat, count: nat): string {
    "-" + Digits(clock) + "-" + Digits(count)
  }

  /** What `append` stores: an event without an id gets one from its topic, the clock and the number of pending events. */
  function Identified(e: Event, clock: nat, count: nat): Event {
    if e.id == [] then e.(id := e.topic + Ascii(ClockAndCount(clock, count))) else e
  }

  predicate Narrow(s: string) {
    forall i :: 0 <= i < |s| ==> s[i] as int < 256
  }

  lemma AsciiInjective(s: string, t: string)
    requires Narrow(s) && Narrow(t) && Ascii(s) == Ascii(t)
    ensures s == t
  {
    assert |Ascii(s)| == |s| && |Ascii(t)| == |t|;
    forall i | 0 <= i < |s| ensures s[i] == t[i] {
      assert Ascii(s)[i] == Ascii(t)[i];
    }
  }

  /** Two events of one topic appended without an id get one id exactly when clock and number of pending events are the same. */
  lemma GeneratedIdsMeetIff(e: Event, c: nat, n: nat, f: Event, d: nat, m: nat)
    requires e.id == [] && f.id == [] && e.topic == f.topic
    ensures Identified(e, c, n).id == Identified(f, d, m).id <==> c == d && n == m
  {
    hide Digits, Ascii;
    var x, y, k := ClockAndCount(c, n), ClockAndCount(d, m), |e.topic|;
    if Identified(e, c, n).id == Identified(f, d, m).id {
      assert (e.topic + Ascii(x))[k..] == Ascii(x) && (f.topic + Ascii(y))[k..] == Ascii(y);
      AsciiInjective(x, y);
      assert x[1..] == Digits(c) + ['-'] + Digits(n) && y[1..] == Digits(d) + ['-'] + Digits(m);
      BeforeOf(Digits(c), '-', Digits(n));
      BeforeOf(Digits(d), '-', Digits(m));
      DigitsInjective(c, d);
      DigitsInjective(n, m);
    }
  }

  // ----- The outbox object -----

  function Failed(batch: seq<Event>, ok: Event -> bool): seq<Event> {
    if batch == [] then [] else (if ok(batch[0]) then [] else [batch[0]]) + Failed(batch[1..], ok)
  }

  function Published(batch: seq<Event>, ok: Event -> bool): seq<Event> {
    if batch == [] then [] else (if ok(batch[0]) then [batch[0]] else []) + Published(batch[1..], ok)
  }

  /** Those that fail keep their order. */
  lemma {:induction false} FailedIsSub(batch: seq<Event>, ok: Event -> bool)
    ensures Sub(Failed(batch, ok), batch)
    decreases |batch|
  {
    if batch != [] {
      FailedIsSub(batch[1..], ok);
      assert batch == [batch[0]] + batch[1..];
      if ok(batch[0]) {
        assert [] + Failed(batch[1..], ok) == Failed(batch[1..], ok);
        SubSkip(Failed(batch[1..], ok), batch[1..], batch[0]);
      } else {
        SubFront(Failed(batch[1..], ok), batch[1..], batch[0]);
      }
    }
  }

  lemma {:induction false} PublishedIsSub(batch: seq<Event>, ok: Event -> bool)
    ensures Sub(Published(batch, ok), batch)
    decreases |batch|
  {
    if batch != [] {
      PublishedIsSub(batch[1..], ok);
      assert batch == [batch[0]] + batch[1..];
      if ok(batch[0]) {
        SubFront(Published(batch[1..], ok), batch[1..], batch[0]);
      } else {
        assert [] + Published(batch[1..], ok) == Published(batch[1..], ok);
        SubSkip(Published(batch[1..], ok), batch[1..], batch[0]);
      }
    }
  }

  /** What was published had been taken by the publisher, and what failed had not. */
  lemma {:induction false} SortedByAnswer(batch: seq<Event>, ok: Event -> bool)
    ensures forall e :: e in Published(batch, ok) <==> e in batch && ok(e)
    ensures forall e :: e in Failed(batch, ok) <==> e in batch && !ok(e)
    decreases |batch|
  {
    if batch != [] {
      SortedByAnswer(batch[1..], ok);
      assert batch == [batch[0]] + batch[1..];
    }
  }

  /** Every event of a batch is published or fails. */
  lemma {:induction false} BatchIsShared(batch: seq<Event>, ok: Event -> bool)
    ensures multiset(batch) == multiset(Failed(batch, ok)) + multiset(Published(batch, ok))
    decreases |batch|
  {
    if batch != [] {
      BatchIsShared(batch[1..], ok);
      assert batch == [batch[0]] + batch[1..];
    }
  }

  /** The publishing loop of `drain`. */
  method PublishAll(batch: seq<Event>, ok: Event -> bool) returns (failed: seq<Event>, published: seq<Event>)
    ensures failed == Failed(batch, ok) && published == Published(batch, ok)
  {
    failed, published := [], [];
    for i := 0 to |batch|
      invariant Failed(batch, ok) == failed + Failed(batch[i..], ok)
      invariant Published(batch, ok) == published + Published(batch[i..], ok)
    {
      OneOfBatch(batch, i, ok, failed, published);
      hide Failed, Published;
      if ok(batch[i]) {
        published := published + [batch[i]];
      } else {
        failed := failed + [batch[i]];
      }
    }
  }

  lemma OneOfBatch(batch: seq<Event>, i: nat, ok: Event -> bool, failed: seq<Event>, published: seq<Event>)
    requires i < |batch|
    ensures failed + Failed(batch[i..], ok) == (if ok(batch[i]) then failed else failed + [batch[i]]) + Failed(batch[i + 1..], ok)
    ensures published + Published(batch[i..], ok)
            == (if ok(batch[i]) then published + [batch[i]] else published) + Published(batch[i + 1..], ok)
  {
    var rest := batch[i..];
    assert rest[0] == batch[i] && rest[1..] == batch[i + 1..];
    assert Failed(rest, ok) == (if ok(batch[i]) then [] else [batch[i]]) + Failed(batch[i + 1..], ok);
    assert Published(rest, ok) == (if ok(batch[i]) then [batch[i]] else []) + Published(batch[i + 1..], ok);
  }

  class FileOutbox {
    var file: seq<byte>
    var pending: seq<Event>

    /** The file holds what is pending, in order, among events that a failed rewrite left behind. */
    ghost predicate Valid(crc: Checksum)
      reads this
    {
      Holds(crc, file, pending)
    }

    constructor ()
      ensures forall crc :: Valid(crc)
      ensures pending == [] && file == []
    {
      file, pending := [], [];
      new;
      forall crc ensures Valid(crc) {
        SubNothing([]);
        assert AllWritable([]) && file == FileOf(crc, []) && Sub(pending, []);
      }
    }

    /** `open` over whatever bytes the file has. */
    method Open(crc: Checksum) returns (status: Status)
      modifies this`pending
      ensures status == Ok <==> OpenFile(crc, file).Some?
      ensures status == Ok ==> pending == OpenFile(crc, file).value
    {
      hide OpenFile;
      pending := [];
      var events := ReadAll(crc, file);
      if events.None? { return Internal; }
      pending := events.value;
      return Ok;
    }

    /** `append`; `written` and `synced` say whether the record reached the file, and the disk. */
    method AppendEvent(crc: Checksum, e: Event, clock: nat, written: bool, synced: bool) returns (status: Status)
      requires Valid(crc) && e.sequence < U64_LIMIT
      modifies this
      ensures Valid(crc)
      ensures var d := Identified(e, clock, |old(pending)|);
              && (status == InvalidArgument <==> e.topic == [])
              && (status == Ok <==> Writable(d) && written && synced)
              && (status == Ok ==> |d.id| <= 16 * 1024 * 1024 && |e.topic| <= 16 * 1024 * 1024
                                   && |e.key| <= 16 * 1024 * 1024 && |e.payload| <= 16 * 1024 * 1024)
              && (status != Ok && written && synced ==>
                    || e.topic == [] || |d.id| > 16 * 1024 * 1024 || |e.topic| > 16 * 1024 * 1024
                    || |e.key| > 16 * 1024 * 1024 || |e.payload| > 16 * 1024 * 1024
                    || 24 + |d.id| + |e.topic| + |e.key| + |e.payload| > 64 * 1024 * 1024)
              && file == (if Writable(d) && written then old(file) + Record(crc, d) else old(file))
              && pending == (if status == Ok then old(pending) + [d] else old(pending))
    {
      hide Sub, FileOf, Record, EncodeEvent, Identified;
      KeepsTopic(e, clock, |pending|);
      EventSizes(Identified(e, clock, |pending|));
      if e.topic == [] { return InvalidArgument; }
      var d := Identified(e, clock, |pending|);
      if !Small(Fields(d)) || |EncodeEvent(d)| > MAX_RECORD || !written { return Internal; }
      ghost var stored :| AllWritable(stored) && file == FileOf(crc, stored) && Sub(pending, stored);
      EncodeAppend(crc, stored, d);
      SubGrows(pending, stored, d);
      assert AllWritable(stored + [d]);
      file := file + Record(crc, d);
      if !synced { return Internal; }
      pending := pending + [d];
      return Ok;
    }

    /**
     `drain`, while others append the events `arriving` as the batch is published; `ok` answers for the publisher. No
     event is lost or published twice.
     */
    method DrainBatch(crc: Checksum, limit: nat, ok: Event -> bool, arriving: seq<Event>, rewritten: bool)
      returns (status: Status, published: seq<Event>)
      requires Valid(crc) && AllWritable(arriving)
      modifies this
      ensures Valid(crc)
      ensures limit == 0 <==> status == InvalidArgument
      ensures limit == 0 ==> pending == old(pending) && file == old(file) && published == []
      ensures limit > 0 ==>
                var n := Least(limit, |old(pending)|);
                && pending == Failed(old(pending[..n]), ok) + (old(pending[n..]) + arriving)
                && published == Published(old(pending[..n]), ok)
                && multiset(old(pending) + arriving) == multiset(pending) + multiset(published)
                && (forall e :: e in published <==> e in old(pending[..n]) && ok(e))
                && Sub(published, old(pending[..n]))
                && file == (if rewritten then FileOf(crc, pending) else old(file) + FileOf(crc, arriving))
                && (status == Ok <==> rewritten && Failed(old(pending[..n]), ok) == [])
    {
      hide Failed, Published, Sub, FileOf;
      published := [];
      if limit == 0 { return InvalidArgument, []; }
      var n := Least(limit, |pending|);
      ghost var before := pending;
      var batch := pending[..n];
      pending := pending[n..];
      var failed;
      failed, published := PublishAll(batch, ok);
      pending, file := pending + arriving, file + FileOf(crc, arriving);
      pending := failed + pending;
      ReturnedIsSub(crc, before, n, ok, old(file), arriving);
      Conserved(before, n, ok, arriving);
      SortedByAnswer(batch, ok);
      PublishedIsSub(batch, ok);
      if rewritten { Rewrite(crc); }
      if !rewritten || failed != [] { return Internal, published; }
      return Ok, published;
    }

    /** `rewriteLocked` when every write succeeds. */
    method Rewrite(crc: Checksum)
      requires AllWritable(pending)
      modifies this`file
      ensures Valid(crc) && file == FileOf(crc, pending)
    {
      hide Record;
      var bytes, i := [], 0;
      while i < |pending|
        invariant 0 <= i <= |pending|
        invariant bytes == FileOf(crc, pending[..i])
      {
        assert pending[..i + 1] == pending[..i] + [pending[i]];
        EncodeAppend(crc, pending[..i], pending[i]);
        bytes := bytes + Record(crc, pending[i]);
        i := i + 1;
      }
      assert pending[..i] == pending;
      file := bytes;
      SubSelf(pending);
    }
  }

  lemma KeepsTopic(e: Event, clock: nat, count: nat)
    ensures var d := Identified(e, clock, count);
            d.topic == e.topic && d.sequence == e.sequence && d.key == e.key && d.payload == e.payload && (e.id != [] ==> d.id == e.id)
  {}

  lemma EventSizes(e: Event)
    ensures |EncodeEvent(e)| == 24 + |e.id| + |e.topic| + |e.key| + |e.payload|
    ensures Small(Fields(e)) <==>
            && |e.id| <= 16 * 1024 * 1024 && |e.topic| <= 16 * 1024 * 1024
            && |e.key| <= 16 * 1024 * 1024 && |e.payload| <= 16 * 1024 * 1024
  {
    hide LittleEndian;
    var f := Fields(e);
    assert f[0] == e.id && f[1] == e.topic && f[2] == e.key && f[3] == e.payload;
    assert |EncodeFields(f[1..][1..][1..][1..])| == 0;
    assert |EncodeFields(f[1..][1..][1..])| == 4 + |e.payload|;
    assert |EncodeFields(f[1..][1..])| == 8 + |e.key| + |e.payload|;
    assert |EncodeFields(f[1..])| == 12 + |e.topic| + |e.key| + |e.payload|;
  }

  lemma Conserved(before: seq<Event>, n: nat, ok: Event -> bool, arriving: seq<Event>)
    requires n <= |before|
    ensures multiset(before + arriving)
            == multiset(Failed(before[..n], ok) + (before[n..] + arriving)) + multiset(Published(before[..n], ok))
  {
    hide Failed, Published;
    BatchIsShared(before[..n], ok);
    assert before + arriving == before[..n] + (before[n..] + arriving);
  }

  lemma {:induction false} FileOfBoth(crc: Checksum, a: seq<Event>, b: seq<Event>)
    ensures FileOf(crc, a + b) == FileOf(crc, a) + FileOf(crc, b)
    decreases |a|
  {
    hide Record;
    if a == [] {
      assert a + b == b;
    } else {
      assert (a + b)[1..] == a[1..] + b;
      FileOfBoth(crc, a[1..], b);
    }
  }

  /** The file holds events that can be read back, those pending among them in order. */
  ghost predicate Holds(crc: Checksum, file: seq<byte>, pending: seq<Event>) {
    exists stored :: AllWritable(stored) && file == FileOf(crc, stored) && Sub(pending, stored)
  }

  lemma ReturnedIsSub(crc: Checksum, before: seq<Event>, n: nat, ok: Event -> bool, file: seq<byte>, arriving: seq<Event>)
    requires n <= |before| && Holds(crc, file, before) && AllWritable(arriving)
    ensures var back := Failed(before[..n], ok) + (before[n..] + arriving);
            AllWritable(back) && Holds(crc, file + FileOf(crc, arriving), back)
  {
    hide Sub, FileOf, Failed, Writable, Holds;
    var rest := before[n..] + arriving;
    FailedIsSub(before[..n], ok);
    SubSelf(rest);
    SubConcat(Failed(before[..n], ok), before[..n], rest, rest);
    assert before[..n] + rest == before + arriving;
    HoldsMore(crc, file, before, arriving);
    HoldsLess(crc, file + FileOf(crc, arriving), Failed(before[..n], ok) + rest, before + arriving);
  }

  lemma HoldsMore(crc: Checksum, file: seq<byte>, pending: seq<Event>, arriving: seq<Event>)
    requires Holds(crc, file, pending) && AllWritable(arriving)
    ensures Holds(crc, file + FileOf(crc, arriving), pending + arriving)
  {
    hide Sub, FileOf, Writable;
    var stored :| AllWritable(stored) && file == FileOf(crc, stored) && Sub(pending, stored);
    SubSelf(arriving);
    SubConcat(pending, stored, arriving, arriving);
    FileOfBoth(crc, stored, arriving);
    assert AllWritable(stored + arriving);
  }

  lemma HoldsLess(crc: Checksum, file: seq<byte>, back: seq<Event>, pending: seq<Event>)
    requires Holds(crc, file, pending) && Sub(back, pending)
    ensures Holds(crc, file, back) && AllWritable(back)
  {
    hide Sub, FileOf, AllWritable;
    var stored :| AllWritable(stored) && file == FileOf(crc, stored) && Sub(pending, stored);
    SubOfSub(back, pending, stored);
    SubIsWritable(back, stored);
  }
}
