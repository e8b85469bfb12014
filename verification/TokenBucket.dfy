/** The token-bucket rate limiter, over real numbers. The clock reading is an argument of each call. */
module TokenBucket {

  datatype Bucket = Bucket(rate: real, capacity: real, tokens: real, last: real)

  datatype Call = Call(now: real, amount: real)

  function Min(a: real, b: real): real {
    if a <= b then a else b
  }

  function Positive(a: real): real {
    if a > 0.0 then a else 0.0
  }

  function Earned(rate: real, dt: real): real {
    dt * rate
  }

  function Refill(b: Bucket, now: real): Bucket {
    b.(tokens := Min(b.capacity, b.tokens + Earned(b.rate, now - b.last)), last := now)
  }

  predicate Grants(b: Bucket, c: Call) {
    c.amount > 0.0 && c.amount <= Refill(b, c.now).tokens
  }

  function GrantedBy(b: Bucket, c: Call): real {
    if Grants(b, c) then c.amount else 0.0
  }

  function After(b: Bucket, c: Call): Bucket {
    var r := Refill(b, c.now);
    if Grants(b, c) then r.(tokens := r.tokens - c.amount) else r
  }

  // ----- Runs -----

  /** The clock never goes back. */
  predicate Monotone(last: real, cs: seq<Call>)
    decreases |cs|
  {
    cs == [] || (last <= cs[0].now && Monotone(cs[0].now, cs[1..]))
  }

  function AfterAll(b: Bucket, cs: seq<Call>): Bucket
    decreases |cs|
  {
    if cs == [] then b else AfterAll(After(b, cs[0]), cs[1..])
  }

  /** The tokens granted by a run. */
  function Granted(b: Bucket, cs: seq<Call>): real
    decreases |cs|
  {
    if cs == [] then 0.0 else GrantedBy(b, cs[0]) + Granted(After(b, cs[0]), cs[1..])
  }

  function EndOf(last: real, cs: seq<Call>): real {
    if cs == [] then last else cs[|cs| - 1].now
  }

  function Fresh(rate: real, burst: real, now: real): Bucket {
    Bucket(rate, burst, burst, now)
  }

  /** The most that refills can add in that time. */
  function Inflow(rate: real, dt: real): real {
    Positive(rate) * dt
  }

  lemma InflowAdds(rate: real, a: real, b: real)
    ensures Inflow(rate, a) + Inflow(rate, b) == Inflow(rate, a + b)
  {}

  /** A call pays what it grants from the balance and the refill. */
  lemma CallPays(b: Bucket, c: Call)
    requires b.tokens <= b.capacity && b.last <= c.now
    ensures GrantedBy(b, c) + Positive(After(b, c).tokens) <= Positive(b.tokens) + Inflow(b.rate, c.now - b.last)
    ensures After(b, c).tokens <= b.capacity
  {
    var dt := c.now - b.last;
    assert Earned(b.rate, dt) <= Inflow(b.rate, dt) && 0.0 <= Inflow(b.rate, dt);
    hide Earned, Inflow;
  }

  /** What a bucket can still grant in a run is its balance and the refill of that time. */
  lemma {:induction false} GrantedBound(b: Bucket, cs: seq<Call>)
    requires b.tokens <= b.capacity && Monotone(b.last, cs)
    ensures Granted(b, cs) <= Positive(b.tokens) + Inflow(b.rate, EndOf(b.last, cs) - b.last)
    ensures AfterAll(b, cs).tokens <= b.capacity
    decreases |cs|
  {
    if cs != [] {
      CallPays(b, cs[0]);
      var b' := After(b, cs[0]);
      hide GrantedBy, Positive, Inflow, Min, Grants;
      GrantedBound(b', cs[1..]);
      assert EndOf(b.last, cs) == EndOf(b'.last, cs[1..]);
      InflowAdds(b.rate, b'.last - b.last, EndOf(b.last, cs) - b'.last);
    }
  }

  lemma {:induction false} MonotoneSplit(last: real, a: seq<Call>, w: seq<Call>)
    requires Monotone(last, a + w)
    ensures Monotone(last, a) && Monotone(EndOf(last, a), w)
    decreases |a|
  {
    if a == [] {
      assert a + w == w;
    } else {
      assert (a + w)[1..] == a[1..] + w;
      MonotoneSplit(a[0].now, a[1..], w);
      assert EndOf(last, a) == EndOf(a[0].now, a[1..]);
    }
  }

  lemma {:induction false} AfterAllKeeps(b: Bucket, cs: seq<Call>)
    ensures var e := AfterAll(b, cs); e.rate == b.rate && e.capacity == b.capacity && e.last == EndOf(b.last, cs)
    decreases |cs|
  {
    if cs != [] { AfterAllKeeps(After(b, cs[0]), cs[1..]); }
  }

  lemma RefillTwice(b: Bucket, c: Call)
    ensures var r := Refill(b, c.now);
            && After(r, c) == After(b, c) && GrantedBy(r, c) == GrantedBy(b, c)
            && r.tokens <= r.capacity == b.capacity && r.rate == b.rate && r.last == c.now
  {}

  /**
   In every run on a monotone clock and every window of it, from the first call of the window to its last:
   what is granted never exceeds burst + rate * length. Negative settings grant as if they were zero.
   */
  lemma WindowBound(rate: real, burst: real, start: real, before: seq<Call>, window: seq<Call>)
    requires Monotone(start, before + window) && window != []
    ensures Granted(AfterAll(Fresh(rate, burst, start), before), window)
            <= Positive(burst) + Inflow(rate, window[|window| - 1].now - window[0].now)
  {
    hide Inflow, Earned, Grants;
    var initial := Fresh(rate, burst, start);
    var b := AfterAll(initial, before);
    MonotoneSplit(start, before, window);
    GrantedBound(initial, before);
    AfterAllKeeps(initial, before);
    // The window opens with a refill, which never goes above the burst.
    var opening := Refill(b, window[0].now);
    RefillTwice(b, window[0]);
    hide Refill, GrantedBy, After;
    GrantedBound(opening, window);
  }

  /** A call is granted exactly when it asks for a positive amount within the burst that balance and refill cover. */
  lemma GrantsIff(b: Bucket, c: Call)
    ensures Grants(b, c) <==> 0.0 < c.amount <= b.capacity && c.amount - b.tokens <= (c.now - b.last) * b.rate
  {
    assert Earned(b.rate, c.now - b.last) == (c.now - b.last) * b.rate;
  }

  /** The balance is between zero and the burst. */
  predicate InRange(b: Bucket) {
    0.0 <= b.tokens <= b.capacity
  }

  lemma EarnedIsNotNegative(rate: real, dt: real)
    requires rate >= 0.0 && dt >= 0.0
    ensures Earned(rate, dt) >= 0.0
  {}

  lemma {:induction false} StaysInRange(b: Bucket, cs: seq<Call>)
    requires b.rate >= 0.0 && InRange(b) && Monotone(b.last, cs)
    ensures InRange(AfterAll(b, cs))
    decreases |cs|
  {
    if cs != [] {
      EarnedIsNotNegative(b.rate, cs[0].now - b.last);
      hide Earned;
      StaysInRange(After(b, cs[0]), cs[1..]);
    }
  }

  ghost predicate AlwaysInRange(rate: real, burst: real) {
    forall start, cs :: Monotone(start, cs) ==> InRange(AfterAll(Fresh(rate, burst, start), cs))
  }

  /** The balance stays in range in every run exactly when neither setting is negative. */
  lemma AlwaysInRangeIff(rate: real, burst: real)
    ensures AlwaysInRange(rate, burst) <==> rate >= 0.0 && burst >= 0.0
  {
    if rate >= 0.0 && burst >= 0.0 {
      forall start, cs | Monotone(start, cs) ensures InRange(AfterAll(Fresh(rate, burst, start), cs)) {
        StaysInRange(Fresh(rate, burst, start), cs);
      }
    } else if burst < 0.0 {
      assert Monotone(0.0, []) && !InRange(AfterAll(Fresh(rate, burst, 0.0), []));
    } else {
      var late := Call(burst / -rate + 1.0, 0.0);
      assert late.now - 0.0 == late.now && Earned(rate, late.now) == rate - burst;
      assert Refill(Fresh(rate, burst, 0.0), late.now).tokens == rate;
      assert [late][1..] == [];
      assert !Grants(Fresh(rate, burst, 0.0), late);
      assert After(Fresh(rate, burst, 0.0), late) == Refill(Fresh(rate, burst, 0.0), late.now);
      assert Monotone(0.0, [late]) && After(Fresh(rate, burst, 0.0), late).tokens == rate;
      assert AfterAll(Fresh(rate, burst, 0.0), [late]) == After(Fresh(rate, burst, 0.0), late);
      assert !InRange(AfterAll(Fresh(rate, burst, 0.0), [late]));
    }
  }

  class RateLimiter {
    const rate: real
    const capacity: real
    var tokens: real
    var last: real

    function State(): Bucket
      reads this
    {
      Bucket(rate, capacity, tokens, last)
    }

    constructor (rate: real, burst: real, now: real)
      ensures State() == Fresh(rate, burst, now)
    {
      this.rate, capacity, tokens, last := rate, burst, burst, now;
    }

    method TryAcquire(now: real, amount: real) returns (granted: bool)
      modifies this
      ensures State() == After(old(State()), Call(now, amount))
      ensures granted == Grants(old(State()), Call(now, amount))
      ensures var refilled := Min(capacity, old(tokens) + (now - old(last)) * rate);
              && last == now && (granted <==> 0.0 < amount <= refilled)
              && tokens == if granted then refilled - amount else refilled
    {
      tokens := Min(capacity, tokens + Earned(rate, now - last));
      last := now;
      if amount <= 0.0 || amount > tokens { return false; }
      tokens := tokens - amount;
      return true;
    }
  }
}
