/** What a shard of the cache keeps: one operation at a time, and over whole traces. */
module LruRetention {
  import opened Common
  import opened Lru

  // ----- One operation -----

  /** The key is in the table after the operation, by the table, the list and the clock before it. */
  ghost predicate Kept(s: Shard, op: Op, k: string)
    requires Valid(s)
  {
    match op
    case Get(x, now) => k in s.entries && (k != x || s.entries[k].expires == 0 || now < s.entries[k].expires)
    case Erase(x) => k in s.entries && k != x
    case Set(x, _, _, _) =>
      if x == "" then k in s.entries
      else k == x || (k in s.entries && !(x !in s.entries && |s.lru| == s.capacity && k == s.lru[|s.lru| - 1]))
  }

  /** Exactly these keys are in the table afterwards, and every key other than the operation's own has its entry unchanged. */
  lemma StepKeepsExactly(s: Shard, op: Op, k: string)
    requires Valid(s)
    ensures k in Step(s, op).entries <==> Kept(s, op, k)
    ensures k in Step(s, op).entries && k != op.key ==> Step(s, op).entries[k] == s.entries[k]
    ensures k in Step(s, op).entries && k == op.key && !op.Set? ==> Step(s, op).entries[k] == s.entries[k]
  {
    hide Without;
    WithoutKeeps(s.lru, op.key);
    if op.Set? && op.key != "" && op.key !in s.entries {
      var grown := [op.key] + s.lru;
      assert grown[|grown| - 1] == if s.lru == [] then op.key else s.lru[|s.lru| - 1];
      assert |s.lru| == s.capacity ==> s.lru[|s.lru| - 1] in s.lru;
    }
  }

  /** So an erase or a lookup leaves every other key the hit it was, with its value. */
  lemma OthersStayHits(s: Shard, op: Op, k: string, now: nat)
    requires Valid(s) && k != op.key && !op.Set?
    ensures Hit(Step(s, op), Get(k, now)) == Hit(s, Get(k, now))
  {
    hide Step, Valid;
    StepKeepsExactly(s, op, k);
  }

  // ----- Traces -----

  /** The key is in the list and everything in front of it belongs to `others`. */
  predicate Behind(lru: seq<string>, k: string, others: set<string>) {
    lru != [] && (lru[0] == k || (lru[0] in others && Behind(lru[1..], k, others)))
  }

  lemma {:induction false} BehindMore(lru: seq<string>, k: string, others: set<string>, more: set<string>)
    requires Behind(lru, k, others) && others <= more
    ensures Behind(lru, k, more)
    decreases |lru|
  {
    if lru[0] != k { BehindMore(lru[1..], k, others, more); }
  }

  lemma {:induction false} BehindIsIn(lru: seq<string>, k: string, others: set<string>)
    requires Behind(lru, k, others)
    ensures k in lru
    decreases |lru|
  {
    if lru[0] != k { BehindIsIn(lru[1..], k, others); }
  }

  lemma {:induction false} BehindWithout(lru: seq<string>, k: string, others: set<string>, x: string)
    requires Behind(lru, k, others) && x != k
    ensures Behind(Without(lru, x), k, others)
    decreases |lru|
  {
    if lru[0] == k {
    } else {
      BehindWithout(lru[1..], k, others, x);
      if lru[0] != x { assert ([lru[0]] + Without(lru[1..], x))[1..] == Without(lru[1..], x); }
    }
  }

  lemma BehindFront(lru: seq<string>, k: string, others: set<string>, x: string)
    requires Behind(lru, k, others)
    ensures Behind([x] + lru, k, others + {x})
  {
    BehindMore(lru, k, others, others + {x});
    assert ([x] + lru)[1..] == lru;
  }

  lemma {:induction false} BehindFewer(lru: seq<string>, k: string, others: set<string>, x: string)
    requires Behind(lru, k, others) && x !in lru
    ensures Behind(lru, k, others - {x})
    decreases |lru|
  {
    if lru[0] != k { BehindFewer(lru[1..], k, others, x); }
  }

  /** A list longer than the others and the key together does not lose the key with its last place. */
  lemma {:induction false} BehindButLast(lru: seq<string>, k: string, others: set<string>)
    requires Behind(lru, k, others) && Distinct(lru) && |lru| > |others| + 1
    ensures Behind(lru[..|lru| - 1], k, others)
    decreases |lru|
  {
    var first, rest := lru[0], lru[1..];
    if first != k {
      assert first !in rest;
      BehindFewer(rest, k, others, first);
      BehindButLast(rest, k, others - {first});
      BehindMore(rest[..|rest| - 1], k, others - {first}, others);
      assert lru[..|lru| - 1][1..] == rest[..|rest| - 1];
    }
  }

  function With(others: set<string>, op: Op): set<string> {
    if op.Erase? then others else others + {op.key}
  }

  /** The keys a trace reads or writes. */
  function Touched(ops: seq<Op>): set<string> {
    if ops == [] then {} else With(Touched(ops[1..]), ops[0])
  }

  lemma MovedBehind(s: Shard, x: string, k: string, others: set<string>)
    requires Behind(s.lru, k, others) && x != k
    ensures Behind(Without(s.lru, x), k, others) && Behind(Without(s.lru, x), k, others + {x})
    ensures Behind(s.lru, k, others + {x}) && Behind(ToFront(s.lru, x), k, others + {x})
  {
    hide Behind, Without;
    BehindWithout(s.lru, k, others, x);
    BehindFront(Without(s.lru, x), k, others, x);
    BehindMore(s.lru, k, others, others + {x});
    BehindMore(Without(s.lru, x), k, others, others + {x});
  }

  lemma InsertedBehind(s: Shard, x: string, e: Entry, k: string, others: set<string>)
    requires Valid(s) && Behind(s.lru, k, others) && x !in s.entries && |others + {x}| < s.capacity
    ensures Behind(Evict(Inserted(s, x, e)).lru, k, others + {x})
  {
    InsertedIsDistinct(s, x, e);
    hide Behind, Distinct;
    BehindFront(s.lru, k, others, x);
    if |s.lru| + 1 > s.capacity { BehindButLast([x] + s.lru, k, others + {x}); }
  }

  /** Whatever is done to fewer other keys than there are places, the key stays, and only they can get in front of it. */
  lemma StepKeepsBehind(s: Shard, op: Op, k: string, others: set<string>)
    requires Valid(s) && Behind(s.lru, k, others) && op.key != k && |With(others, op)| < s.capacity
    ensures Behind(Step(s, op).lru, k, With(others, op))
  {
    hide Without, Behind, ToFront, Evict, Valid;
    MovedBehind(s, op.key, k, others);
    if op.Set? && op.key != "" && op.key !in s.entries {
      InsertedBehind(s, op.key, MakeEntry(op.value, op.ttl, op.now), k, others);
    }
  }

  lemma StepKeepsEntry(s: Shard, op: Op, k: string, others: set<string>)
    requires Valid(s) && Behind(s.lru, k, others) && op.key != k && |With(others, op)| < s.capacity
    ensures k in s.entries && k in Step(s, op).entries && Step(s, op).entries[k] == s.entries[k]
  {
    hide Behind, Step, Valid;
    BehindIsIn(s.lru, k, others);
    ListHasEntries(s, k);
    StepKeepsBehind(s, op, k, others);
    StepKeepsValid(s, op);
    BehindIsIn(Step(s, op).lru, k, With(others, op));
    ListHasEntries(Step(s, op), k);
    StepKeepsExactly(s, op, k);
  }

  lemma {:induction false} RunKeepsBehind(s: Shard, ops: seq<Op>, k: string, others: set<string>)
    requires Valid(s) && Behind(s.lru, k, others)
    requires forall i :: 0 <= i < |ops| ==> ops[i].key != k
    requires |others + Touched(ops)| < s.capacity
    ensures k in s.entries && k in RunOps(s, ops).entries && RunOps(s, ops).entries[k] == s.entries[k]
    decreases |ops|
  {
    hide Step, Valid;
    assert k in s.entries by { BehindIsIn(s.lru, k, others); ListHasEntries(s, k); }
    if ops != [] {
      var now := With(others, ops[0]);
      assert now + Touched(ops[1..]) == others + Touched(ops);
      Smaller(now, others + Touched(ops));
      StepKeepsBehind(s, ops[0], k, others);
      StepKeepsEntry(s, ops[0], k, others);
      StepKeepsValid(s, ops[0]);
      RunKeepsBehind(Step(s, ops[0]), ops[1..], k, now);
    }
  }

  lemma ListHasEntries(s: Shard, k: string)
    requires Valid(s)
    ensures k in s.lru <==> k in s.entries
  {}

  lemma Smaller(a: set<string>, b: set<string>)
    requires a <= b
    ensures |a| <= |b|
  {
    if a != b { assert b == a + (b - a); }
  }

  /**
   A key that was set stays while fewer other keys than the shard has places are read or written, whatever else happens
   to them: after any trace before the set and any such trace after it, the key is a hit with its value until it expires.
   */
  lemma StaysWhileFewOthers(capacity: nat, before: seq<Op>, k: string, value: string, ttl: int, now: nat, after: seq<Op>, later: nat)
    requires k != "" && forall i :: 0 <= i < |after| ==> after[i].key != k
    requires |Touched(after)| < if capacity == 0 then 1 else capacity
    ensures var s := RunOps(Step(RunOps(Empty(capacity), before), Set(k, value, ttl, now)), after);
            Hit(s, Get(k, later)) == if ttl > 0 && later >= now + ttl then None else Some(value)
  {
    hide RunOps, Touched;
    RunKeepsValid(Empty(capacity), before);
    CapacityStays(Empty(capacity), before);
    var s := RunOps(Empty(capacity), before);
    var t := Step(s, Set(k, value, ttl, now));
    StepKeepsValid(s, Set(k, value, ttl, now));
    SetIsFirst(s, k, value, ttl, now);
    SetThenGet(s, k, value, ttl, now, later);
    hide Step;
    assert {} + Touched(after) == Touched(after);
    RunKeepsBehind(t, after, k, {});
  }

  lemma SetIsFirst(s: Shard, k: string, value: string, ttl: int, now: nat)
    requires Valid(s) && k != ""
    ensures Step(s, Set(k, value, ttl, now)).lru != [] && Step(s, Set(k, value, ttl, now)).lru[0] == k
  {
    hide Without;
  }

  lemma {:induction false} CapacityStays(s: Shard, ops: seq<Op>)
    requires Valid(s)
    ensures RunOps(s, ops).capacity == s.capacity
    decreases |ops|
  {
    hide Step, Valid;
    if ops != [] {
      StepKeepsValid(s, ops[0]);
      CapacityStays(Step(s, ops[0]), ops[1..]);
    }
  }
}
