/**
 `getOrLoad`, by any number of callers at once: a caller that misses becomes the one that loads the key, or waits for
 the one that does. Every step under the shard's lock, and every promise, is one atomic step; others may put and drop
 entries at any time, as `set`, `erase`, expiry and eviction do.
 */
module SingleFlight {
  import opened Common

  datatype Result = Result(status: Status, value: string)

  /** History: `loads` counts the calls of the loader for this flight; `again` says whether it began with its key cached. */
  datatype Flight = Flight(key: string, leader: nat, loads: nat, result: Option<Result>, again: bool)

  datatype Stage =
    | Missed
    | Hit(value: string)
    | Waiting(flight: nat)
    | Loading(flight: nat)
    | Storing(flight: nat, loaded: Result)
    | Publishing(flight: nat, loaded: Result)
    | Leaving(flight: nat, loaded: Result)
    | Returned(flight: nat, loaded: Result)

  datatype Caller = Caller(key: string, stage: Stage)

  /** An entry, and how many callers had arrived when the key came into the cache. */
  datatype Entry = Entry(value: string, since: nat)

  /** `known` is history: all values that were put for a key, or loaded for it with success. */
  datatype State = State(
    callers: seq<Caller>, inflight: map<string, nat>, flights: seq<Flight>,
    cache: map<string, Entry>, known: set<(string, string)>)

  datatype Event =
    | Arrive(key: string)
    | Join(i: nat)
    | Load(i: nat, result: Result)
    | Store(i: nat)
    | Publish(i: nat)
    | Leave(i: nat)
    | Receive(i: nat)
    | Put(key: string, value: string)
    | Drop(key: string)

  predicate Enabled(s: State, e: Event) {
    match e
    case Arrive(_) | Put(_, _) | Drop(_) => true
    case Join(i) => i < |s.callers| && s.callers[i].stage.Missed?
    case Load(i, _) => i < |s.callers| && s.callers[i].stage.Loading? && s.callers[i].stage.flight < |s.flights|
    case Store(i) => i < |s.callers| && s.callers[i].stage.Storing?
    case Publish(i) => i < |s.callers| && s.callers[i].stage.Publishing? && s.callers[i].stage.flight < |s.flights|
    case Leave(i) => i < |s.callers| && s.callers[i].stage.Leaving?
    case Receive(i) =>
      && i < |s.callers| && s.callers[i].stage.Waiting? && s.callers[i].stage.flight < |s.flights|
      && s.flights[s.callers[i].stage.flight].result.Some?
  }

  function At(s: State, i: nat, stage: Stage): seq<Caller>
    requires i < |s.callers|
  {
    s.callers[i := s.callers[i].(stage := stage)]
  }

  /** `set`, which refuses the empty key. */
  function Cached(s: State, key: string, value: string): State {
    if key == "" then s
    else s.(cache := s.cache[key := Entry(value, if key in s.cache then s.cache[key].since else |s.callers|)],
            known := s.known + {(key, value)})
  }

  function Do(s: State, e: Event): State
    requires Enabled(s, e)
  {
    match e
    case Arrive(key) => s.(callers := s.callers + [Caller(key, if key in s.cache then Hit(s.cache[key].value) else Missed)])
    case Join(i) =>
      var key := s.callers[i].key;
      if key in s.inflight then s.(callers := At(s, i, Waiting(s.inflight[key])))
      else
        s.(callers := At(s, i, Loading(|s.flights|)), inflight := s.inflight[key := |s.flights|],
           flights := s.flights + [Flight(key, i, 0, None, key in s.cache)])
    case Load(i, result) =>
      var f := s.callers[i].stage.flight;
      s.(callers := At(s, i, Storing(f, result)), flights := s.flights[f := s.flights[f].(loads := s.flights[f].loads + 1)])
    case Store(i) =>
      var stage := s.callers[i].stage;
      var moved := s.(callers := At(s, i, Publishing(stage.flight, stage.loaded)));
      if stage.loaded.status == Ok then Cached(moved, s.callers[i].key, stage.loaded.value) else moved
    case Publish(i) =>
      var stage := s.callers[i].stage;
      s.(callers := At(s, i, Leaving(stage.flight, stage.loaded)),
         flights := s.flights[stage.flight := s.flights[stage.flight].(result := Some(stage.loaded))])
    case Leave(i) =>
      var stage := s.callers[i].stage;
      s.(callers := At(s, i, Returned(stage.flight, stage.loaded)), inflight := s.inflight - {s.callers[i].key})
    case Receive(i) =>
      var f := s.callers[i].stage.flight;
      s.(callers := At(s, i, Returned(f, s.flights[f].result.value)))
    case Put(key, value) => Cached(s, key, value)
    case Drop(key) => s.(cache := s.cache - {key})
  }

  // ----- Invariant -----

  predicate Leads(c: Caller, f: nat) {
    (c.stage.Loading? || c.stage.Storing? || c.stage.Publishing? || c.stage.Leaving?) && c.stage.flight == f
  }

  /** What a caller may rely on at its stage. */
  predicate GoodCaller(s: State, i: nat)
    requires i < |s.callers|
  {
    var c := s.callers[i];
    c.stage.Missed? || c.stage.Hit? ||
    (&& c.stage.flight < |s.flights|
     && var f := s.flights[c.stage.flight];
        && f.key == c.key
        && (Leads(c, c.stage.flight) ==> f.leader == i && c.key in s.inflight && s.inflight[c.key] == c.stage.flight)
        && (c.stage.Loading? ==> f.loads == 0 && f.result.None?)
        && (c.stage.Storing? || c.stage.Publishing? ==> f.loads == 1 && f.result.None?)
        && (c.stage.Leaving? || c.stage.Returned? ==> f.loads == 1 && f.result == Some(c.stage.loaded)))
  }

  /** A flight without a result has its leader still at work; it is loaded at most once. */
  predicate GoodFlight(s: State, f: nat)
    requires f < |s.flights|
  {
    && s.flights[f].loads <= 1 && s.flights[f].leader < |s.callers|
    && (if s.flights[f].result.None? then Leads(s.callers[s.flights[f].leader], f) else s.flights[f].loads == 1)
  }

  /** A key in the table belongs to a flight whose leader will take it out again. */
  predicate GoodKey(s: State, key: string)
    requires key in s.inflight
  {
    var f := s.inflight[key];
    f < |s.flights| && s.flights[f].key == key && s.flights[f].leader < |s.callers|
    && Leads(s.callers[s.flights[f].leader], f) && s.callers[s.flights[f].leader].key == key
  }

  predicate Inv(s: State) {
    && (forall i :: 0 <= i < |s.callers| ==> GoodCaller(s, i))
    && (forall f :: 0 <= f < |s.flights| ==> GoodFlight(s, f))
    && (forall key :: key in s.inflight ==> GoodKey(s, key))
  }

  lemma StepKeepsInv(s: State, e: Event)
    requires Inv(s) && Enabled(s, e)
    ensures Inv(Do(s, e))
  {
    hide Inv;
    match e
    case Arrive(_) => Grown(s, Do(s, e));
    case Join(i) => if s.callers[i].key in s.inflight { Joined(s, i); } else { Led(s, i); }
    case Load(i, result) => Loaded(s, i, result);
    case Store(i) => Stored(s, i);
    case Publish(i) => Published(s, i);
    case Leave(i) => Left(s, i);
    case Receive(i) => Received(s, i);
    case Put(_, _) => SameFlights(s, Do(s, e));
    case Drop(_) => SameFlights(s, Do(s, e));
  }

  lemma SameFlights(s: State, s': State)
    requires Inv(s) && s'.callers == s.callers && s'.inflight == s.inflight && s'.flights == s.flights
    ensures Inv(s')
  {
    forall i | 0 <= i < |s'.callers| ensures GoodCaller(s', i) { assert GoodCaller(s, i); }
    forall f | 0 <= f < |s'.flights| ensures GoodFlight(s', f) { assert GoodFlight(s, f); }
    forall key | key in s'.inflight ensures GoodKey(s', key) { assert GoodKey(s, key); }
  }

  lemma Grown(s: State, s': State)
    requires Inv(s) && s'.flights == s.flights && s'.inflight == s.inflight
    requires |s'.callers| == |s.callers| + 1 && s'.callers[..|s.callers|] == s.callers
    requires (s'.callers[|s.callers|].stage.Missed? || s'.callers[|s.callers|].stage.Hit?)
    ensures Inv(s')
  {
    forall i | 0 <= i < |s'.callers| ensures GoodCaller(s', i) {
      if i < |s.callers| { assert s'.callers[i] == s'.callers[..|s.callers|][i] && GoodCaller(s, i); }
    }
    assert forall i :: 0 <= i < |s.callers| ==> s'.callers[i] == s'.callers[..|s.callers|][i];
    forall f | 0 <= f < |s'.flights| ensures GoodFlight(s', f) { assert GoodFlight(s, f); }
    forall key | key in s'.inflight ensures GoodKey(s', key) { assert GoodKey(s, key); }
  }

  lemma Led(s: State, i: nat)
    requires Inv(s) && Enabled(s, Join(i)) && s.callers[i].key !in s.inflight
    ensures Inv(Do(s, Join(i)))
  {
    var s' := Do(s, Join(i));
    forall j | 0 <= j < |s'.callers| ensures GoodCaller(s', j) { assert GoodCaller(s, j); }
    forall f | 0 <= f < |s'.flights| ensures GoodFlight(s', f) { assert f < |s.flights| ==> GoodFlight(s, f); }
    forall key | key in s'.inflight ensures GoodKey(s', key) { assert key in s.inflight ==> GoodKey(s, key); }
  }

  lemma Joined(s: State, i: nat)
    requires Inv(s) && Enabled(s, Join(i)) && s.callers[i].key in s.inflight
    ensures Inv(Do(s, Join(i)))
  {
    var s' := Do(s, Join(i));
    assert GoodCaller(s, i);
    assert GoodKey(s, s.callers[i].key);
    forall j | 0 <= j < |s'.callers| ensures GoodCaller(s', j) { assert GoodCaller(s, j); }
    forall f | 0 <= f < |s'.flights| ensures GoodFlight(s', f) { assert GoodFlight(s, f); }
    forall key | key in s'.inflight ensures GoodKey(s', key) { assert GoodKey(s, key); }
  }

  lemma Loaded(s: State, i: nat, result: Result)
    requires Inv(s) && Enabled(s, Load(i, result))
    ensures Inv(Do(s, Load(i, result)))
  {
    var s' := Do(s, Load(i, result));
    assert GoodCaller(s, i);
    forall j | 0 <= j < |s'.callers| ensures GoodCaller(s', j) { assert GoodCaller(s, j); }
    forall f | 0 <= f < |s'.flights| ensures GoodFlight(s', f) { assert GoodFlight(s, f); }
    forall key | key in s'.inflight ensures GoodKey(s', key) { assert GoodKey(s, key); }
  }

  lemma Stored(s: State, i: nat)
    requires Inv(s) && Enabled(s, Store(i))
    ensures Inv(Do(s, Store(i)))
  {
    var stage := s.callers[i].stage;
    var s' := s.(callers := At(s, i, Publishing(stage.flight, stage.loaded)));
    assert GoodCaller(s, i);
    forall j | 0 <= j < |s'.callers| ensures GoodCaller(s', j) { assert GoodCaller(s, j); }
    forall f | 0 <= f < |s'.flights| ensures GoodFlight(s', f) { assert GoodFlight(s, f); }
    forall key | key in s'.inflight ensures GoodKey(s', key) { assert GoodKey(s, key); }
    hide GoodCaller, GoodFlight, GoodKey;
    SameFlights(s', Do(s, Store(i)));
  }

  lemma Published(s: State, i: nat)
    requires Inv(s) && Enabled(s, Publish(i))
    ensures Inv(Do(s, Publish(i)))
  {
    var s' := Do(s, Publish(i));
    assert GoodCaller(s, i);
    forall j | 0 <= j < |s'.callers| ensures GoodCaller(s', j) { assert GoodCaller(s, j); }
    forall f | 0 <= f < |s'.flights| ensures GoodFlight(s', f) { assert GoodFlight(s, f); }
    forall key | key in s'.inflight ensures GoodKey(s', key) { assert GoodKey(s, key); }
  }

  lemma Left(s: State, i: nat)
    requires Inv(s) && Enabled(s, Leave(i))
    ensures Inv(Do(s, Leave(i)))
  {
    var s' := Do(s, Leave(i));
    assert GoodCaller(s, i);
    forall j | 0 <= j < |s'.callers| ensures GoodCaller(s', j) { assert GoodCaller(s, j); }
    forall f | 0 <= f < |s'.flights| ensures GoodFlight(s', f) { assert GoodFlight(s, f); }
    forall key | key in s'.inflight ensures GoodKey(s', key) { assert GoodKey(s, key); }
  }

  lemma Received(s: State, i: nat)
    requires Inv(s) && Enabled(s, Receive(i))
    ensures Inv(Do(s, Receive(i)))
  {
    var s' := Do(s, Receive(i));
    assert GoodCaller(s, i);
    assert GoodFlight(s, s.callers[i].stage.flight);
    forall j | 0 <= j < |s'.callers| ensures GoodCaller(s', j) { assert GoodCaller(s, j); }
    forall f | 0 <= f < |s'.flights| ensures GoodFlight(s', f) { assert GoodFlight(s, f); }
    forall key | key in s'.inflight ensures GoodKey(s', key) { assert GoodKey(s, key); }
  }

  // ----- The cache -----

  /** A caller that hit has a known value; one that did not came before its key was in the cache. */
  predicate GoodGet(s: State, i: nat)
    requires i < |s.callers|
  {
    var c := s.callers[i];
    && (c.stage.Hit? ==> (c.key, c.stage.value) in s.known)
    && (!c.stage.Hit? && c.key in s.cache ==> i < s.cache[c.key].since)
  }

  predicate CacheInv(s: State) {
    && (forall key :: key in s.cache ==> (key, s.cache[key].value) in s.known && s.cache[key].since <= |s.callers|)
    && (forall i :: 0 <= i < |s.callers| ==> GoodGet(s, i))
  }

  lemma StepKeepsCache(s: State, e: Event)
    requires CacheInv(s) && Enabled(s, e)
    ensures CacheInv(Do(s, e))
  {
    var s' := Do(s, e);
    forall i | 0 <= i < |s'.callers| ensures GoodGet(s', i) {
      if i < |s.callers| { assert GoodGet(s, i); }
    }
  }

  // ----- Runs -----

  predicate CanRun(s: State, es: seq<Event>)
    decreases |es|
  {
    es == [] || (Enabled(s, es[0]) && CanRun(Do(s, es[0]), es[1..]))
  }

  function Run(s: State, es: seq<Event>): State
    requires CanRun(s, es)
    decreases |es|
  {
    if es == [] then s else Run(Do(s, es[0]), es[1..])
  }

  lemma {:induction false} RunKeepsInv(s: State, es: seq<Event>)
    requires Inv(s) && CacheInv(s) && CanRun(s, es)
    ensures Inv(Run(s, es)) && CacheInv(Run(s, es))
    decreases |es|
  {
    hide Inv, CacheInv, Do, Enabled;
    if es != [] {
      StepKeepsInv(s, es[0]);
      StepKeepsCache(s, es[0]);
      RunKeepsInv(Do(s, es[0]), es[1..]);
    }
  }

  predicate LoadSame(a: Caller, b: Caller) {
    a.stage.Loading? && b.stage.Loading? && a.key == b.key
  }

  const EMPTY: State := State([], map[], [], map[], {})

  /**
   In every interleaving: no two callers load one key at the same time, each flight is loaded at most once, every
   waiter's flight has its result or a leader that still has to publish it, and whoever returns has the result of
   the one load of its flight. Whoever hits gets a value that was put, or loaded with success, for its key; and
   whoever loads a key that is in the cache, or is going to, arrived before the key came into it.
   */
  lemma EveryRunLoadsOnce(es: seq<Event>)
    requires CanRun(EMPTY, es)
    ensures var f := Run(EMPTY, es);
            && (forall i, j :: 0 <= i < |f.callers| && 0 <= j < |f.callers| && LoadSame(f.callers[i], f.callers[j]) ==> i == j)
            && (forall k :: 0 <= k < |f.flights| ==> f.flights[k].loads <= 1)
            && (forall i :: 0 <= i < |f.callers| ==> Served(f, i) && GoodGet(f, i))
  {
    hide CanRun, Run;
    RunKeepsInv(EMPTY, es);
    var f := Run(EMPTY, es);
    forall i, j | 0 <= i < |f.callers| && 0 <= j < |f.callers| && LoadSame(f.callers[i], f.callers[j]) ensures i == j {
      assert GoodCaller(f, i) && GoodCaller(f, j);
    }
    forall k | 0 <= k < |f.flights| ensures f.flights[k].loads <= 1 { assert GoodFlight(f, k); }
    forall i | 0 <= i < |f.callers| ensures Served(f, i) && GoodGet(f, i) {
      assert GoodCaller(f, i);
      if f.callers[i].stage.Waiting? { assert GoodFlight(f, f.callers[i].stage.flight); }
    }
  }

  predicate Served(s: State, i: nat)
    requires i < |s.callers|
  {
    var c := s.callers[i];
    && (c.stage.Waiting? ==>
          && c.stage.flight < |s.flights| && s.flights[c.stage.flight].key == c.key
          && (Enabled(s, Receive(i))
              || (s.flights[c.stage.flight].leader < |s.callers| && Leads(s.callers[s.flights[c.stage.flight].leader], c.stage.flight))))
    && (c.stage.Returned? ==>
          && c.stage.flight < |s.flights| && s.flights[c.stage.flight].key == c.key
          && s.flights[c.stage.flight].loads == 1 && s.flights[c.stage.flight].result == Some(c.stage.loaded))
  }

  // ----- When a cached key is loaded again -----

  /** The caller becomes the one that loads its key. */
  predicate Starts(s: State, i: nat) {
    Enabled(s, Join(i)) && Do(s, Join(i)).callers[i].stage.Loading?
  }

  /**
   In every run: a caller of a key in the cache starts to load it exactly when it arrived before the key came into the
   cache, has not looked for a flight since its miss, and there is none.
   */
  lemma StartsIff(es: seq<Event>, i: nat)
    requires CanRun(EMPTY, es) && i < |Run(EMPTY, es).callers| && Run(EMPTY, es).callers[i].key in Run(EMPTY, es).cache
    ensures var f := Run(EMPTY, es);
            var c := f.callers[i];
            Starts(f, i) <==> i < f.cache[c.key].since && c.stage.Missed? && c.key !in f.inflight
  {
    hide CanRun, Run, Inv;
    EmptyInv();
    RunKeepsInv(EMPTY, es);
    assert GoodGet(Run(EMPTY, es), i);
  }

  lemma EmptyInv()
    ensures Inv(EMPTY) && CacheInv(EMPTY)
  {}

  /** The step is a caller that missed its key and takes the lead while the key is in the cache. */
  predicate LateJoin(s: State, e: Event) {
    && e.Join? && e.i < |s.callers| && s.callers[e.i].stage.Missed?
    && s.callers[e.i].key in s.cache && s.callers[e.i].key !in s.inflight
  }

  predicate SomeLateJoin(s: State, es: seq<Event>)
    requires CanRun(s, es)
    decreases |es|
  {
    es != [] && (LateJoin(s, es[0]) || SomeLateJoin(Do(s, es[0]), es[1..]))
  }

  /** Some flight began with its key in the cache. */
  predicate SomeAgain(s: State) {
    exists k :: 0 <= k < |s.flights| && s.flights[k].again
  }

  lemma StepAgainIff(s: State, e: Event)
    requires Enabled(s, e)
    ensures SomeAgain(Do(s, e)) <==> SomeAgain(s) || LateJoin(s, e)
  {
    var s' := Do(s, e);
    if SomeAgain(s) {
      var k :| 0 <= k < |s.flights| && s.flights[k].again;
      assert s'.flights[k].again;
    }
    if LateJoin(s, e) { assert s'.flights[|s.flights|].again; }
  }

  lemma {:induction false} AgainIff(s: State, es: seq<Event>)
    requires CanRun(s, es)
    ensures SomeAgain(Run(s, es)) <==> SomeAgain(s) || SomeLateJoin(s, es)
    decreases |es|
  {
    hide SomeAgain, LateJoin, Do, Enabled;
    if es != [] {
      StepAgainIff(s, es[0]);
      AgainIff(Do(s, es[0]), es[1..]);
    }
  }

  /** In every run, no flight for a key in the cache ever begins exactly when no caller joins late. */
  lemma EveryRunReloadsIff(es: seq<Event>)
    requires CanRun(EMPTY, es)
    ensures (exists k :: 0 <= k < |Run(EMPTY, es).flights| && Run(EMPTY, es).flights[k].again) <==> SomeLateJoin(EMPTY, es)
  {
    hide CanRun, Run, SomeLateJoin;
    AgainIff(EMPTY, es);
  }

  // ----- Keys that nobody drops -----

  predicate Succeeded(f: Flight) {
    f.result.Some? && f.result.value.status == Ok && f.key != ""
  }

  /** A later flight of a key finds the earlier one over and, if that succeeded, the key in the cache. */
  predicate GoodPair(s: State, k: nat, l: nat)
    requires k < |s.flights| && l < |s.flights|
  {
    k < l && s.flights[k].key == s.flights[l].key ==>
      s.flights[k].result.Some? && (Succeeded(s.flights[k]) ==> s.flights[l].again)
  }

  /** A value that was loaded with success is in the cache once it was stored. */
  predicate StoredValue(s: State, i: nat)
    requires i < |s.callers|
  {
    var c := s.callers[i];
    c.stage.Publishing? && c.stage.loaded.status == Ok && c.key != "" ==> c.key in s.cache
  }

  predicate KeptInv(s: State) {
    && (forall k, l :: 0 <= k < |s.flights| && 0 <= l < |s.flights| ==> GoodPair(s, k, l))
    && (forall k :: 0 <= k < |s.flights| && Succeeded(s.flights[k]) ==> s.flights[k].key in s.cache)
    && (forall i :: 0 <= i < |s.callers| ==> StoredValue(s, i))
  }

  lemma JoinKeepsKept(s: State, i: nat)
    requires Inv(s) && KeptInv(s) && Enabled(s, Join(i))
    ensures KeptInv(Do(s, Join(i)))
  {
    var s' := Do(s, Join(i));
    forall j | 0 <= j < |s'.callers| ensures StoredValue(s', j) { assert StoredValue(s, j); }
    forall k, l | 0 <= k < |s'.flights| && 0 <= l < |s'.flights| ensures GoodPair(s', k, l) {
      if l < |s.flights| {
        assert k < l ==> GoodPair(s, k, l);
      } else if k < l && s.flights[k].key == s.callers[i].key {
        assert GoodFlight(s, k);
        assert s.flights[k].result.None? ==> GoodCaller(s, s.flights[k].leader);
      }
    }
  }

  lemma PublishKeepsKept(s: State, i: nat)
    requires Inv(s) && KeptInv(s) && Enabled(s, Publish(i))
    ensures KeptInv(Do(s, Publish(i)))
  {
    var s' := Do(s, Publish(i));
    assert GoodCaller(s, i) && StoredValue(s, i);
    forall j | 0 <= j < |s'.callers| ensures StoredValue(s', j) { assert StoredValue(s, j); }
    forall k, l | 0 <= k < |s'.flights| && 0 <= l < |s'.flights| ensures GoodPair(s', k, l) { assert GoodPair(s, k, l); }
  }

  lemma OthersKeepKept(s: State, e: Event)
    requires Inv(s) && KeptInv(s) && Enabled(s, e) && !e.Join? && !e.Publish? && !e.Drop?
    ensures KeptInv(Do(s, e))
  {
    var s' := Do(s, e);
    forall k | 0 <= k < |s.flights|
      ensures s'.flights[k].key == s.flights[k].key && s'.flights[k].result == s.flights[k].result
              && s'.flights[k].again == s.flights[k].again
    {}
    forall j | 0 <= j < |s'.callers| ensures StoredValue(s', j) {
      if j < |s.callers| { assert StoredValue(s, j); }
    }
    forall k, l | 0 <= k < |s'.flights| && 0 <= l < |s'.flights| ensures GoodPair(s', k, l) { assert GoodPair(s, k, l); }
  }

  lemma {:induction false} RunKeepsKept(s: State, es: seq<Event>)
    requires Inv(s) && KeptInv(s) && CanRun(s, es) && forall i :: 0 <= i < |es| ==> !es[i].Drop?
    ensures KeptInv(Run(s, es))
    decreases |es|
  {
    hide Inv, KeptInv, Do, Enabled;
    if es != [] {
      StepKeepsInv(s, es[0]);
      if es[0].Join? {
        JoinKeepsKept(s, es[0].i);
      } else if es[0].Publish? {
        PublishKeepsKept(s, es[0].i);
      } else {
        OthersKeepKept(s, es[0]);
      }
      RunKeepsKept(Do(s, es[0]), es[1..]);
    }
  }

  /**
   In every run in which nothing is dropped: a key that was loaded with success is loaded again by late callers
   only, so without a late join no key is loaded with success and then loaded again.
   */
  lemma ReloadedByLateCallers(es: seq<Event>)
    requires CanRun(EMPTY, es) && forall i :: 0 <= i < |es| ==> !es[i].Drop?
    ensures var f := Run(EMPTY, es);
            && (forall k, l :: 0 <= k < l < |f.flights| && Succeeded(f.flights[k]) && f.flights[k].key == f.flights[l].key ==>
                  f.flights[l].again)
            && (!SomeLateJoin(EMPTY, es) ==>
                  forall k, l :: 0 <= k < l < |f.flights| && Succeeded(f.flights[k]) ==> f.flights[k].key != f.flights[l].key)
  {
    hide CanRun, Run, SomeLateJoin, Succeeded, Inv;
    EmptyInv();
    assert KeptInv(EMPTY);
    RunKeepsKept(EMPTY, es);
    AgainIff(EMPTY, es);
    var f := Run(EMPTY, es);
    forall k, l | 0 <= k < l < |f.flights| && Succeeded(f.flights[k]) && f.flights[k].key == f.flights[l].key
      ensures f.flights[l].again
    {
      assert GoodPair(f, k, l);
    }
  }

  /** One caller of a key that another one missed, too, loads it from beginning to end. */
  function FirstCaller(key: string, value: string): seq<Event> {
    [Arrive(key), Arrive(key), Join(0), Load(0, Result(Ok, value)), Store(0), Publish(0), Leave(0)]
  }

  function After(s: State, es: seq<Event>): Option<State>
    decreases |es|
  {
    if es == [] then Some(s) else if Enabled(s, es[0]) then After(Do(s, es[0]), es[1..]) else None
  }

  lemma {:induction false} AfterIsRun(s: State, es: seq<Event>)
    requires After(s, es).Some?
    ensures CanRun(s, es) && Run(s, es) == After(s, es).value
    decreases |es|
  {
    hide Enabled, Do;
    if es != [] { AfterIsRun(Do(s, es[0]), es[1..]); }
  }

  lemma FirstCallerLeaves(key: string, value: string)
    requires key != ""
    ensures After(EMPTY, FirstCaller(key, value)).Some?
    ensures var s := After(EMPTY, FirstCaller(key, value)).value;
            && s.flights == [Flight(key, 0, 1, Some(Result(Ok, value)), false)] && s.inflight == map[]
            && key in s.cache && |s.callers| == 2 && s.callers[1] == Caller(key, Missed)
  {
    var es := FirstCaller(key, value);
    var s2 := Do(Do(EMPTY, es[0]), es[1]);
    assert s2.callers == [Caller(key, Missed), Caller(key, Missed)];
    var s4 := Do(Do(s2, es[2]), es[3]);
    assert s4.flights == [Flight(key, 0, 1, None, false)];
    var s7 := Do(Do(Do(s4, es[4]), es[5]), es[6]);
    hide Do, Enabled;
    AfterTwo(EMPTY, es);
    AfterTwo(s2, es[2..]);
    AfterThree(s4, es[4..]);
  }

  lemma {:induction false} AfterBoth(s: State, es: seq<Event>, more: seq<Event>)
    requires After(s, es).Some?
    ensures After(s, es + more) == After(After(s, es).value, more)
    decreases |es|
  {
    hide Do, Enabled;
    if es == [] {
      assert es + more == more;
    } else {
      assert (es + more)[1..] == es[1..] + more;
      AfterBoth(Do(s, es[0]), es[1..], more);
    }
  }

  /** A late caller: a key in the cache, that nobody drops, is loaded again, because a miss is not looked up under the lock. */
  lemma LoadedTwice(key: string, value: string)
    requires key != ""
    ensures var es := FirstCaller(key, value) + [Join(1), Load(1, Result(Ok, value))];
            && CanRun(EMPTY, es)
            && var f := Run(EMPTY, es);
               key in f.cache && |f.flights| == 2
               && f.flights[0].key == f.flights[1].key == key && f.flights[0].loads == f.flights[1].loads == 1
  {
    var first, second := FirstCaller(key, value), [Join(1), Load(1, Result(Ok, value))];
    FirstCallerLeaves(key, value);
    AfterBoth(EMPTY, first, second);
    var s := After(EMPTY, first).value;
    hide FirstCaller;
    AfterTwo(s, second);
    AfterIsRun(EMPTY, first + second);
  }

  lemma AfterTwo(s: State, es: seq<Event>)
    requires |es| >= 2 && Enabled(s, es[0]) && Enabled(Do(s, es[0]), es[1])
    ensures After(s, es) == After(Do(Do(s, es[0]), es[1]), es[2..])
  {
    hide Do, Enabled;
    assert es[1..][1..] == es[2..];
  }

  lemma AfterThree(s: State, es: seq<Event>)
    requires |es| >= 3 && Enabled(s, es[0]) && Enabled(Do(s, es[0]), es[1]) && Enabled(Do(Do(s, es[0]), es[1]), es[2])
    ensures After(s, es) == After(Do(Do(Do(s, es[0]), es[1]), es[2]), es[3..])
  {
    hide Do, Enabled;
    AfterTwo(s, es);
    assert es[2..][1..] == es[3..];
  }
}
