/** Where the values of `getOrLoad` come from: the events of the run, and nothing else. */
module SingleFlightTrace {
  import opened Common
  import opened SingleFlight

  /** The loader was called by this caller and answered so. */
  predicate Answered(es: seq<Event>, i: nat, r: Result) {
    exists t :: 0 <= t < |es| && es[t] == Load(i, r)
  }

  predicate WasPut(es: seq<Event>, key: string, value: string) {
    exists t :: 0 <= t < |es| && es[t] == Put(key, value)
  }

  /** Somebody put the value for the key, or a caller of the key loaded it with success. */
  ghost predicate Justified(s: State, es: seq<Event>, key: string, value: string) {
    WasPut(es, key, value) || exists i :: LoadedBy(s, es, i, key, value)
  }

  predicate LoadedBy(s: State, es: seq<Event>, i: nat, key: string, value: string) {
    i < |s.callers| && s.callers[i].key == key && Answered(es, i, Result(Ok, value))
  }

  predicate CarriesAnswer(c: Caller, es: seq<Event>, i: nat) {
    c.stage.Storing? || c.stage.Publishing? || c.stage.Leaving? ==> Answered(es, i, c.stage.loaded)
  }

  predicate HoldsAnswer(f: Flight, es: seq<Event>) {
    f.result.Some? ==> Answered(es, f.leader, f.result.value)
  }

  /** A flight is for the key of the caller that leads it. */
  predicate LeaderHasKey(f: Flight, s: State) {
    f.leader < |s.callers| && s.callers[f.leader].key == f.key
  }

  ghost predicate Traced(s: State, es: seq<Event>) {
    && (forall i :: 0 <= i < |s.callers| ==> CarriesAnswer(s.callers[i], es, i))
    && (forall f :: 0 <= f < |s.flights| ==> HoldsAnswer(s.flights[f], es) && LeaderHasKey(s.flights[f], s))
    && (forall key :: key in s.cache ==> Justified(s, es, key, s.cache[key].value))
    && (forall i :: 0 <= i < |s.callers| && s.callers[i].stage.Hit? ==>
          Justified(s, es, s.callers[i].key, s.callers[i].stage.value))
  }

  lemma AnsweredLater(es: seq<Event>, e: Event, i: nat, r: Result)
    ensures Answered(es, i, r) ==> Answered(es + [e], i, r)
    ensures e == Load(i, r) ==> Answered(es + [e], i, r)
  {
    if Answered(es, i, r) {
      var t :| 0 <= t < |es| && es[t] == Load(i, r);
      assert (es + [e])[t] == Load(i, r);
    }
    if e == Load(i, r) { assert (es + [e])[|es|] == e; }
  }

  lemma PutLater(es: seq<Event>, e: Event, key: string, value: string)
    ensures WasPut(es, key, value) ==> WasPut(es + [e], key, value)
    ensures e == Put(key, value) ==> WasPut(es + [e], key, value)
  {
    if WasPut(es, key, value) {
      var t :| 0 <= t < |es| && es[t] == Put(key, value);
      assert (es + [e])[t] == Put(key, value);
    }
    if e == Put(key, value) { assert (es + [e])[|es|] == e; }
  }

  /** Callers keep their keys and places. */
  lemma CallersStay(s: State, e: Event)
    requires Enabled(s, e)
    ensures |Do(s, e).callers| >= |s.callers|
    ensures forall i :: 0 <= i < |s.callers| ==> Do(s, e).callers[i].key == s.callers[i].key
  {}

  lemma JustifiedLater(s: State, es: seq<Event>, e: Event, key: string, value: string)
    requires Enabled(s, e) && Justified(s, es, key, value)
    ensures Justified(Do(s, e), es + [e], key, value)
  {
    hide Do, Enabled, Answered, WasPut;
    CallersStay(s, e);
    PutLater(es, e, key, value);
    if !WasPut(es, key, value) {
      var i :| LoadedBy(s, es, i, key, value);
      AnsweredLater(es, e, i, Result(Ok, value));
      assert LoadedBy(Do(s, e), es + [e], i, key, value);
    }
  }

  lemma CallersTraced(s: State, es: seq<Event>, e: Event, i: nat)
    requires Traced(s, es) && Inv(s) && Enabled(s, e) && i < |Do(s, e).callers|
    ensures CarriesAnswer(Do(s, e).callers[i], es + [e], i)
  {
    hide Answered, Justified, Inv;
    if i < |s.callers| {
      assert CarriesAnswer(s.callers[i], es, i);
      var c := Do(s, e).callers[i];
      if c.stage.Storing? || c.stage.Publishing? || c.stage.Leaving? { AnsweredLater(es, e, i, c.stage.loaded); }
    }
  }

  lemma FlightsTraced(s: State, es: seq<Event>, e: Event, f: nat)
    requires Traced(s, es) && Inv(s) && Enabled(s, e) && f < |Do(s, e).flights|
    ensures HoldsAnswer(Do(s, e).flights[f], es + [e]) && LeaderHasKey(Do(s, e).flights[f], Do(s, e))
  {
    hide Answered, Justified;
    CallersStay(s, e);
    if f < |s.flights| { assert LeaderHasKey(s.flights[f], s); }
    var g := Do(s, e).flights[f];
    if g.result.Some? {
      AnsweredLater(es, e, g.leader, g.result.value);
      assert HoldsAnswer(s.flights[f], es);
      if e.Publish? {
        assert GoodCaller(s, e.i) && CarriesAnswer(s.callers[e.i], es, e.i);
      }
    }
  }

  lemma CacheTraced(s: State, es: seq<Event>, e: Event, key: string)
    requires Traced(s, es) && Enabled(s, e) && key in Do(s, e).cache
    ensures Justified(Do(s, e), es + [e], key, Do(s, e).cache[key].value)
  {
    hide Answered, WasPut;
    var value := Do(s, e).cache[key].value;
    if key in s.cache && value == s.cache[key].value {
      JustifiedLater(s, es, e, key, value);
    } else if e.Put? {
      PutLater(es, e, key, value);
    } else {
      assert e.Store? && CarriesAnswer(s.callers[e.i], es, e.i);
      AnsweredLater(es, e, e.i, Result(Ok, value));
      assert LoadedBy(Do(s, e), es + [e], e.i, key, value);
    }
  }

  lemma HitTraced(s: State, es: seq<Event>, e: Event, i: nat)
    requires Traced(s, es) && Enabled(s, e) && i < |Do(s, e).callers| && Do(s, e).callers[i].stage.Hit?
    ensures Justified(Do(s, e), es + [e], Do(s, e).callers[i].key, Do(s, e).callers[i].stage.value)
  {
    hide Answered, WasPut, Justified;
    var c := Do(s, e).callers[i];
    if i < |s.callers| {
      assert s.callers[i] == c;
    } else {
      assert e.Arrive? && c.key in s.cache && c.stage.value == s.cache[c.key].value;
    }
    JustifiedLater(s, es, e, c.key, c.stage.value);
  }

  lemma StepTraced(s: State, es: seq<Event>, e: Event)
    requires Traced(s, es) && Inv(s) && Enabled(s, e)
    ensures Traced(Do(s, e), es + [e])
  {
    hide Do, Enabled, Inv, CarriesAnswer, HoldsAnswer, LeaderHasKey, Justified;
    var s' := Do(s, e);
    forall i | 0 <= i < |s'.callers| ensures CarriesAnswer(s'.callers[i], es + [e], i) { CallersTraced(s, es, e, i); }
    forall f | 0 <= f < |s'.flights| ensures HoldsAnswer(s'.flights[f], es + [e]) && LeaderHasKey(s'.flights[f], s') {
      FlightsTraced(s, es, e, f);
    }
    forall key | key in s'.cache ensures Justified(s', es + [e], key, s'.cache[key].value) { CacheTraced(s, es, e, key); }
    forall i | 0 <= i < |s'.callers| && s'.callers[i].stage.Hit?
      ensures Justified(s', es + [e], s'.callers[i].key, s'.callers[i].stage.value)
    {
      HitTraced(s, es, e, i);
    }
  }

  lemma {:induction false} RunTraced(s: State, done: seq<Event>, es: seq<Event>)
    requires Traced(s, done) && Inv(s) && CanRun(s, es)
    ensures Traced(Run(s, es), done + es) && Inv(Run(s, es))
    decreases |es|
  {
    hide Traced, Inv, Do, Enabled;
    if es == [] {
      assert done + es == done;
    } else {
      StepTraced(s, done, es[0]);
      StepKeepsInv(s, es[0]);
      RunTraced(Do(s, es[0]), done + [es[0]], es[1..]);
      assert done + [es[0]] + es[1..] == done + es;
    }
  }

  /**
   In every run: every caller that returned has what the loader answered to the leader of its flight, which is for the
   caller's own key; and every hit, and every value in the cache, was put for its key or loaded for it with success.
   */
  lemma EveryAnswerHasASource(es: seq<Event>)
    requires CanRun(EMPTY, es)
    ensures var f := Run(EMPTY, es);
            && (forall i :: 0 <= i < |f.callers| && f.callers[i].stage.Returned? ==>
                  ReturnedAnswer(f, es, i))
            && (forall i :: 0 <= i < |f.callers| && f.callers[i].stage.Hit? ==>
                  Justified(f, es, f.callers[i].key, f.callers[i].stage.value))
            && (forall key :: key in f.cache ==> Justified(f, es, key, f.cache[key].value))
  {
    hide CanRun, Run, Inv;
    EmptyInv();
    assert Traced(EMPTY, []);
    RunTraced(EMPTY, [], es);
    assert [] + es == es;
    var f := Run(EMPTY, es);
    hide Justified, Answered;
    forall i | 0 <= i < |f.callers| && f.callers[i].stage.Returned? ensures ReturnedAnswer(f, es, i) {
      ReturnedFrom(f, i);
      assert HoldsAnswer(f.flights[f.callers[i].stage.flight], es) && LeaderHasKey(f.flights[f.callers[i].stage.flight], f);
    }
  }

  predicate ReturnedAnswer(s: State, es: seq<Event>, i: nat)
    requires i < |s.callers| && s.callers[i].stage.Returned?
  {
    var c := s.callers[i];
    && c.stage.flight < |s.flights|
    && var l := s.flights[c.stage.flight].leader;
       l < |s.callers| && s.callers[l].key == c.key && Answered(es, l, c.stage.loaded)
  }

  lemma ReturnedFrom(s: State, i: nat)
    requires Inv(s) && i < |s.callers| && s.callers[i].stage.Returned?
    ensures var c := s.callers[i];
            && c.stage.flight < |s.flights| && s.flights[c.stage.flight].result == Some(c.stage.loaded)
            && s.flights[c.stage.flight].key == c.key && s.flights[c.stage.flight].leader < |s.callers|
  {
    assert GoodCaller(s, i);
    assert GoodFlight(s, s.callers[i].stage.flight);
  }
}
