/** One shard of the cache: a recency list and a table of entries that may expire. */
module Lru {
  import opened Common
  import opened Subsequence

  /** `expires` is the clock reading from which the entry is dead; zero means never. */
  datatype Entry = Entry(value: string, expires: nat)

  datatype Shard = Shard(capacity: nat, lru: seq<string>, entries: map<string, Entry>)

  datatype Op =
    | Get(key: string, now: nat)
    | Set(key: string, value: string, ttl: int, now: nat)
    | Erase(key: string)

  predicate Expired(e: Entry, now: nat) {
    e.expires != 0 && now >= e.expires
  }

  function MakeEntry(value: string, ttl: int, now: nat): Entry {
    Entry(value, if ttl > 0 then now + ttl else 0)
  }

  function Without(s: seq<string>, k: string): seq<string> {
    if s == [] then [] else if s[0] == k then Without(s[1..], k) else [s[0]] + Without(s[1..], k)
  }

  function ToFront(s: seq<string>, k: string): seq<string> {
    [k] + Without(s, k)
  }

  function Drop(s: Shard, k: string): Shard {
    s.(lru := Without(s.lru, k), entries := s.entries - {k})
  }

  function Evict(s: Shard): Shard
    requires s.lru != []
  {
    if |s.lru| > s.capacity
    then s.(lru := s.lru[..|s.lru| - 1], entries := s.entries - {s.lru[|s.lru| - 1]})
    else s
  }

  predicate Live(s: Shard, k: string, now: nat) {
    k in s.entries && !Expired(s.entries[k], now)
  }

  function Step(s: Shard, op: Op): Shard {
    match op
    case Get(k, now) => if Live(s, k, now) then s.(lru := ToFront(s.lru, k)) else Drop(s, k)
    case Set(k, value, ttl, now) =>
      if k == "" then s
      else
        var e := s.entries[k := MakeEntry(value, ttl, now)];
        if k in s.entries then s.(lru := ToFront(s.lru, k), entries := e)
        else Evict(s.(lru := [k] + s.lru, entries := e))
    case Erase(k) => Drop(s, k)
  }

  /** What a get returns; other operations return nothing. */
  function Hit(s: Shard, op: Op): Option<string> {
    if op.Get? && Live(s, op.key, op.now) then Some(s.entries[op.key].value) else None
  }

  // ----- List and table agree -----

  predicate Distinct(s: seq<string>) {
    forall i, j :: 0 <= i < j < |s| ==> s[i] != s[j]
  }

  ghost predicate Valid(s: Shard) {
    && Distinct(s.lru) && |s.lru| <= s.capacity && s.capacity > 0 && "" !in s.entries
    && forall k :: k in s.lru <==> k in s.entries
  }

  lemma {:induction false} WithoutKeeps(s: seq<string>, k: string)
    ensures forall x :: x in Without(s, k) <==> x in s && x != k
    ensures k !in s ==> Without(s, k) == s
    ensures Distinct(s) ==> Distinct(Without(s, k)) && |Without(s, k)| == |s| - if k in s then 1 else 0
  {
    if s != [] {
      WithoutKeeps(s[1..], k);
      assert s == [s[0]] + s[1..];
      assert Distinct(s) ==> s[0] !in s[1..];
    }
  }

  lemma LastIsGone(s: seq<string>)
    requires s != [] && Distinct(s)
    ensures Distinct(s[..|s| - 1]) && forall x :: x in s[..|s| - 1] <==> x in s && x != s[|s| - 1]
  {
    assert s == s[..|s| - 1] + [s[|s| - 1]];
  }

  lemma EvictKeepsValid(s: Shard)
    requires s.lru != [] && Distinct(s.lru) && |s.lru| <= s.capacity + 1 && s.capacity > 0 && "" !in s.entries
    requires forall k :: k in s.lru <==> k in s.entries
    ensures Valid(Evict(s))
  {
    LastIsGone(s.lru);
  }

  lemma StepKeepsValid(s: Shard, op: Op)
    requires Valid(s)
    ensures Valid(Step(s, op)) && Step(s, op).capacity == s.capacity
  {
    hide Without;
    WithoutKeeps(s.lru, op.key);
    if op.Set? && op.key != "" && op.key !in s.entries {
      var grown := s.(lru := [op.key] + s.lru, entries := s.entries[op.key := MakeEntry(op.value, op.ttl, op.now)]);
      assert Distinct(grown.lru);
      EvictKeepsValid(grown);
    }
  }

  // ----- Inclusion -----

  lemma {:induction false} SubWithout(a: seq<string>, b: seq<string>, k: string)
    requires Sub(a, b)
    ensures Sub(Without(a, k), Without(b, k))
    decreases |b|
  {
    if a != [] {
      if a[0] == b[0] {
        SubWithout(a[1..], b[1..], k);
        if a[0] != k { SubFront(Without(a[1..], k), Without(b[1..], k), a[0]); }
      } else {
        SubWithout(a, b[1..], k);
        if b[0] != k { SubSkip(Without(a, k), Without(b[1..], k), b[0]); }
      }
    }
  }

  predicate Agree(a: map<string, Entry>, b: map<string, Entry>) {
    forall k :: k in a ==> k in b && b[k] == a[k]
  }

  /** Its list is a subsequence, its entries are the same, and it has no more free places. */
  predicate Within(s: Shard, l: Shard) {
    Sub(s.lru, l.lru) && Agree(s.entries, l.entries) && s.capacity - |s.lru| <= l.capacity - |l.lru|
  }

  /** The small shard is a part of the large one. */
  ghost predicate Nested(s: Shard, l: Shard) {
    Valid(s) && Valid(l) && Within(s, l)
  }

  lemma KeyFacts(s: Shard, k: string)
    requires Valid(s)
    ensures |s.lru| <= s.capacity
    ensures |Without(s.lru, k)| == |s.lru| - if k in s.entries then 1 else 0
    ensures k !in s.entries ==> Without(s.lru, k) == s.lru && s.entries - {k} == s.entries
  {
    hide Without;
    WithoutKeeps(s.lru, k);
  }

  lemma DropWithin(s: Shard, l: Shard, k: string)
    requires Nested(s, l)
    ensures Within(Drop(s, k), Drop(l, k))
  {
    hide Sub, Without, Valid;
    KeyFacts(s, k);
    KeyFacts(l, k);
    SubWithout(s.lru, l.lru, k);
  }

  /** A key of the large shard moves to the front there; the small shard may not have it. */
  lemma MoveWithin(s: Shard, l: Shard, k: string)
    requires Nested(s, l) && k in l.entries
    ensures Within(if k in s.entries then s.(lru := ToFront(s.lru, k)) else s, l.(lru := ToFront(l.lru, k)))
  {
    hide Sub, Without, Valid;
    KeyFacts(s, k);
    KeyFacts(l, k);
    SubWithout(s.lru, l.lru, k);
    if k in s.entries {
      SubFront(Without(s.lru, k), Without(l.lru, k), k);
    } else {
      SubSkip(s.lru, Without(l.lru, k), k);
    }
  }

  lemma GetWithin(s: Shard, l: Shard, op: Op)
    requires Nested(s, l) && op.Get?
    ensures Within(Step(s, op), Step(l, op))
    ensures Hit(s, op).Some? ==> Hit(l, op) == Hit(s, op)
  {
    hide Sub, Without, Valid, ToFront;
    KeyFacts(s, op.key);
    if Live(l, op.key, op.now) { MoveWithin(s, l, op.key); } else { DropWithin(s, l, op.key); }
  }

  function Inserted(s: Shard, k: string, e: Entry): Shard {
    s.(lru := [k] + s.lru, entries := s.entries[k := e])
  }

  function Renewed(s: Shard, k: string, e: Entry): Shard {
    s.(lru := ToFront(s.lru, k), entries := s.entries[k := e])
  }

  /** Evicting from the small shard alone. */
  lemma EvictSmall(s: Shard, l: Shard)
    requires s.lru != [] && Sub(s.lru, l.lru) && Agree(s.entries, l.entries)
    requires s.capacity - |s.lru| <= l.capacity - |l.lru| && |l.lru| <= l.capacity
    ensures Within(Evict(s), l)
  {
    hide Sub;
    SubLasts(s.lru, l.lru);
  }

  /** The large shard evicts only when the small one does too, and then what the small one lacks or evicts as well. */
  lemma EvictBoth(s: Shard, l: Shard)
    requires s.lru != [] && l.lru != [] && Sub(s.lru, l.lru) && Agree(s.entries, l.entries) && Distinct(l.lru)
    requires forall k :: k in s.entries ==> k in s.lru
    requires s.capacity - |s.lru| <= l.capacity - |l.lru| && |s.lru| <= s.capacity + 1 && |l.lru| <= l.capacity + 1
    ensures Within(Evict(s), Evict(l))
  {
    if |l.lru| <= l.capacity {
      EvictSmall(s, l);
    } else {
      SubLasts(s.lru, l.lru);
      LastInBoth(s.lru, l.lru);
      hide Sub, Distinct;
    }
  }

  /** If the last key of the larger list is in the smaller one, it is last there. */
  lemma {:induction false} LastInBoth(a: seq<string>, b: seq<string>)
    requires Sub(a, b) && Distinct(b) && a != []
    ensures b != [] && (b[|b| - 1] in a ==> a[|a| - 1] == b[|b| - 1])
    decreases |b|
  {
    if a[0] == b[0] {
      if |a| > 1 {
        LastInBoth(a[1..], b[1..]);
      } else if |b| > 1 {
        assert b[0] != b[|b| - 1];
      }
    } else {
      LastInBoth(a, b[1..]);
    }
  }

  /** A set, whichever of the shards has the key. */
  lemma SetWithin(s: Shard, l: Shard, k: string, e: Entry)
    requires Nested(s, l) && k != ""
    ensures Within(if k in s.entries then Renewed(s, k, e) else Evict(Inserted(s, k, e)),
                   if k in l.entries then Renewed(l, k, e) else Evict(Inserted(l, k, e)))
  {
    hide Sub, Valid, ToFront, Evict, Within, Agree;
    if k in s.entries {
      SetInBoth(s, l, k, e);
    } else if k in l.entries {
      SetInLarge(s, l, k, e);
    } else {
      SetInNone(s, l, k, e);
    }
  }

  lemma SetInBoth(s: Shard, l: Shard, k: string, e: Entry)
    requires Nested(s, l) && k in s.entries
    ensures k in l.entries && Within(Renewed(s, k, e), Renewed(l, k, e))
  {
    hide Sub, Valid, ToFront;
    MoveWithin(s, l, k);
  }

  lemma SetInLarge(s: Shard, l: Shard, k: string, e: Entry)
    requires Nested(s, l) && k !in s.entries && k in l.entries
    ensures Within(Evict(Inserted(s, k, e)), Renewed(l, k, e))
  {
    hide Sub, Valid, Without, Evict;
    KeyFacts(s, k);
    KeyFacts(l, k);
    SubWithout(s.lru, l.lru, k);
    SubFront(s.lru, Without(l.lru, k), k);
    EvictSmall(Inserted(s, k, e), Renewed(l, k, e));
  }

  lemma SetInNone(s: Shard, l: Shard, k: string, e: Entry)
    requires Nested(s, l) && k !in l.entries
    ensures k !in s.entries && Within(Evict(Inserted(s, k, e)), Evict(Inserted(l, k, e)))
  {
    hide Sub, Evict, Distinct;
    SubFront(s.lru, l.lru, k);
    InsertedIsDistinct(l, k, e);
    assert forall x :: x in Inserted(s, k, e).entries ==> x in Inserted(s, k, e).lru;
    EvictBoth(Inserted(s, k, e), Inserted(l, k, e));
  }

  lemma InsertedIsDistinct(l: Shard, k: string, e: Entry)
    requires Valid(l) && k !in l.entries
    ensures Distinct(Inserted(l, k, e).lru)
  {}

  lemma StepKeepsNested(s: Shard, l: Shard, op: Op)
    requires Nested(s, l)
    ensures Nested(Step(s, op), Step(l, op))
    ensures Hit(s, op).Some? ==> Hit(l, op) == Hit(s, op)
  {
    hide Sub, Within, Without, Valid, Evict, ToFront;
    StepKeepsValid(s, op);
    StepKeepsValid(l, op);
    match op
    case Get(_, _) => GetWithin(s, l, op);
    case Erase(k) => DropWithin(s, l, k);
    case Set(k, value, ttl, now) => if k != "" { SetWithin(s, l, k, MakeEntry(value, ttl, now)); }
  }

  // ----- Runs -----

  function Empty(capacity: nat): Shard {
    Shard(if capacity == 0 then 1 else capacity, [], map[])
  }

  function RunOps(s: Shard, ops: seq<Op>): Shard
    decreases |ops|
  {
    if ops == [] then s else RunOps(Step(s, ops[0]), ops[1..])
  }

  function Hits(s: Shard, ops: seq<Op>): (r: seq<Option<string>>)
    ensures |r| == |ops|
    decreases |ops|
  {
    if ops == [] then [] else [Hit(s, ops[0])] + Hits(Step(s, ops[0]), ops[1..])
  }

  lemma {:induction false} RunKeepsValid(s: Shard, ops: seq<Op>)
    requires Valid(s)
    ensures Valid(RunOps(s, ops))
    decreases |ops|
  {
    hide Step, Valid;
    if ops != [] {
      StepKeepsValid(s, ops[0]);
      RunKeepsValid(Step(s, ops[0]), ops[1..]);
    }
  }

  lemma {:induction false} RunKeepsNested(s: Shard, l: Shard, ops: seq<Op>)
    requires Nested(s, l)
    ensures Nested(RunOps(s, ops), RunOps(l, ops))
    ensures forall i :: 0 <= i < |ops| && Hits(s, ops)[i].Some? ==> Hits(l, ops)[i] == Hits(s, ops)[i]
    decreases |ops|
  {
    hide Step, Nested, Hit;
    if ops != [] {
      StepKeepsNested(s, l, ops[0]);
      RunKeepsNested(Step(s, ops[0]), Step(l, ops[0]), ops[1..]);
    }
  }

  /**
   LRU inclusion: driven by the same timed trace, the smaller shard's recency list is a subsequence of the larger
   one's, and every hit of the smaller is a hit of the larger with the same value.
   */
  lemma Inclusion(small: nat, large: nat, ops: seq<Op>)
    requires small <= large
    ensures Sub(RunOps(Empty(small), ops).lru, RunOps(Empty(large), ops).lru)
    ensures forall i :: 0 <= i < |ops| && Hits(Empty(small), ops)[i].Some? ==>
              Hits(Empty(large), ops)[i] == Hits(Empty(small), ops)[i]
  {
    hide Sub, RunOps, Hits;
    assert Sub<string>([], []) by { SubSelf<string>([]); }
    RunKeepsNested(Empty(small), Empty(large), ops);
  }

  // ----- A hit is the last value set -----

  /** An unbounded table of what was set last and not erased since. */
  function Remember(r: map<string, Entry>, op: Op): map<string, Entry> {
    match op
    case Get(_, _) => r
    case Set(k, value, ttl, now) => if k == "" then r else r[k := MakeEntry(value, ttl, now)]
    case Erase(k) => r - {k}
  }

  function RememberAll(r: map<string, Entry>, ops: seq<Op>): map<string, Entry>
    decreases |ops|
  {
    if ops == [] then r else RememberAll(Remember(r, ops[0]), ops[1..])
  }

  predicate Remembered(s: Shard, r: map<string, Entry>) {
    forall k :: k in s.entries ==> k in r && r[k] == s.entries[k]
  }

  lemma {:induction false} RunIsRemembered(s: Shard, r: map<string, Entry>, ops: seq<Op>)
    requires Valid(s) && Remembered(s, r)
    ensures Remembered(RunOps(s, ops), RememberAll(r, ops))
    decreases |ops|
  {
    if ops != [] {
      StepKeepsValid(s, ops[0]);
      assert Remembered(Step(s, ops[0]), Remember(r, ops[0])) by { hide Valid, Without; }
      hide Step, Remember, Remembered, Valid;
      RunIsRemembered(Step(s, ops[0]), Remember(r, ops[0]), ops[1..]);
    }
  }

  /** After any trace, a hit returns the value that was set last, not erased since and not expired. */
  lemma HitIsLastSet(capacity: nat, ops: seq<Op>, k: string, now: nat)
    requires Hit(RunOps(Empty(capacity), ops), Get(k, now)).Some?
    ensures var r := RememberAll(map[], ops);
            && k in r && !Expired(r[k], now)
            && Hit(RunOps(Empty(capacity), ops), Get(k, now)) == Some(r[k].value)
  {
    hide RunOps, RememberAll;
    RunIsRemembered(Empty(capacity), map[], ops);
  }

  /** A key that was set and neither erased nor expired is a hit at once. */
  lemma SetThenGet(s: Shard, k: string, value: string, ttl: int, now: nat, later: nat)
    requires Valid(s) && k != ""
    ensures Hit(Step(s, Set(k, value, ttl, now)), Get(k, later))
            == if ttl > 0 && later >= now + ttl then None else Some(value)
  {
    hide Without;
    var s' := Step(s, Set(k, value, ttl, now));
    if k !in s.entries {
      var grown := [k] + s.lru;
      assert |grown| > s.capacity ==> grown[|grown| - 1] in s.lru;
    }
    assert k in s'.entries && s'.entries[k] == MakeEntry(value, ttl, now);
  }

  // ----- What is evicted was used least recently -----

  type Stamps = map<string, nat>

  /** A key is used when it is set or when a get finds it. */
  predicate Uses(s: Shard, op: Op) {
    (op.Set? && op.key != "") || Hit(s, op).Some?
  }

  function Stamp(s: Shard, used: Stamps, op: Op, t: nat): Stamps {
    if Uses(s, op) then used[op.key := t] else used
  }

  /** When each key was last used, counting the operations from `t`. */
  function LastUses(s: Shard, used: Stamps, ops: seq<Op>, t: nat): Stamps
    decreases |ops|
  {
    if ops == [] then used else LastUses(Step(s, ops[0]), Stamp(s, used, ops[0], t), ops[1..], t + 1)
  }

  /** The list runs from the latest use to the earliest, all before `t`. */
  predicate ByRecency(lru: seq<string>, used: Stamps, t: nat) {
    lru == [] || (lru[0] in used && used[lru[0]] < t && ByRecency(lru[1..], used, used[lru[0]]))
  }

  lemma {:induction false} WithoutByRecency(lru: seq<string>, used: Stamps, t: nat, k: string)
    requires ByRecency(lru, used, t)
    ensures ByRecency(Without(lru, k), used, t)
    decreases |lru|
  {
    if lru != [] {
      WithoutByRecency(lru[1..], used, used[lru[0]], k);
      assert ([lru[0]] + Without(lru[1..], k))[1..] == Without(lru[1..], k);
    }
  }

  lemma {:induction false} OtherByRecency(lru: seq<string>, used: Stamps, t: nat, k: string, v: nat)
    requires ByRecency(lru, used, t) && k !in lru
    ensures ByRecency(lru, used[k := v], t)
    decreases |lru|
  {
    if lru != [] { OtherByRecency(lru[1..], used, used[lru[0]], k, v); }
  }

  lemma FrontByRecency(lru: seq<string>, used: Stamps, t: nat, k: string)
    requires ByRecency(lru, used, t) && k !in lru
    ensures ByRecency([k] + lru, used[k := t], t + 1)
  {
    OtherByRecency(lru, used, t, k, t);
    assert ([k] + lru)[1..] == lru;
  }

  lemma {:induction false} ButLastByRecency(lru: seq<string>, used: Stamps, t: nat)
    requires ByRecency(lru, used, t) && lru != []
    ensures ByRecency(lru[..|lru| - 1], used, t)
    decreases |lru|
  {
    if |lru| > 1 {
      ButLastByRecency(lru[1..], used, used[lru[0]]);
      assert lru[..|lru| - 1][1..] == lru[1..][..|lru| - 2];
    }
  }

  lemma {:induction false} LastIsLeast(lru: seq<string>, used: Stamps, t: nat, k: string)
    requires ByRecency(lru, used, t) && k in lru
    ensures k in used && used[k] < t && lru[|lru| - 1] in used
    ensures k != lru[|lru| - 1] ==> used[lru[|lru| - 1]] < used[k]
    decreases |lru|
  {
    if |lru| > 1 {
      LastIsLeast(lru[1..], used, used[lru[0]], if k in lru[1..] then k else lru[|lru| - 1]);
      if k !in lru[1..] { assert k == lru[0]; }
    }
  }

  lemma StepByRecency(s: Shard, used: Stamps, op: Op, t: nat)
    requires Valid(s) && ByRecency(s.lru, used, t)
    ensures ByRecency(Step(s, op).lru, Stamp(s, used, op, t), t + 1)
  {
    var k := op.key;
    WithoutKeeps(s.lru, k);
    WithoutByRecency(s.lru, used, t, k);
    LaterByRecency(s.lru, used, t);
    LaterByRecency(Without(s.lru, k), used, t);
    hide Without, ByRecency;
    FrontByRecency(Without(s.lru, k), used, t, k);
    ButLastByRecency([k] + Without(s.lru, k), used[k := t], t + 1);
  }

  lemma LaterByRecency(lru: seq<string>, used: Stamps, t: nat)
    requires ByRecency(lru, used, t)
    ensures ByRecency(lru, used, t + 1)
  {}

  lemma {:induction false} RunByRecency(s: Shard, used: Stamps, ops: seq<Op>, t: nat)
    requires Valid(s) && ByRecency(s.lru, used, t)
    ensures ByRecency(RunOps(s, ops).lru, LastUses(s, used, ops, t), t + |ops|)
    decreases |ops|
  {
    hide Step, Stamp, ByRecency, Valid;
    if ops != [] {
      StepKeepsValid(s, ops[0]);
      StepByRecency(s, used, ops[0], t);
      RunByRecency(Step(s, ops[0]), Stamp(s, used, ops[0], t), ops[1..], t + 1);
    }
  }

  /** After any trace, a set that evicts a key evicts the one used least recently. */
  lemma EvictsLeastRecent(capacity: nat, ops: seq<Op>, op: Op, gone: string, kept: string)
    requires var s := RunOps(Empty(capacity), ops);
             op.Set? && gone in s.lru && gone !in Step(s, op).lru && kept in s.lru && kept != gone
    ensures var used := LastUses(Empty(capacity), map[], ops, 0);
            gone in used && kept in used && used[gone] < used[kept]
  {
    hide RunOps, LastUses;
    var s := RunOps(Empty(capacity), ops);
    RunKeepsValid(Empty(capacity), ops);
    RunByRecency(Empty(capacity), map[], ops, 0);
    LastGoes(s, op, gone);
    LastIsLeast(s.lru, LastUses(Empty(capacity), map[], ops, 0), |ops|, kept);
  }

  lemma LastGoes(s: Shard, op: Op, gone: string)
    requires Valid(s) && op.Set? && gone in s.lru && gone !in Step(s, op).lru
    ensures gone == s.lru[|s.lru| - 1]
  {
    WithoutKeeps(s.lru, op.key);
    hide Without;
    if op.key !in s.entries {
      var grown := [op.key] + s.lru;
      assert grown == grown[..|grown| - 1] + [s.lru[|s.lru| - 1]];
      assert gone in grown;
    }
  }

  // ----- The shard as it is updated in place -----

  class CacheShard {
    const capacity: nat
    var lru: seq<string>
    var entries: map<string, Entry>
    var hits: nat
    var misses: nat

    function State(): Shard
      reads this
    {
      Shard(capacity, lru, entries)
    }

    constructor (capacity: nat)
      ensures Valid(State()) && State() == Empty(capacity) && hits == 0 && misses == 0
    {
      this.capacity := if capacity == 0 then 1 else capacity;
      lru, entries, hits, misses := [], map[], 0, 0;
    }

    method Read(key: string, now: nat) returns (status: Status, value: string)
      requires Valid(State())
      modifies this
      ensures Valid(State())
      ensures key == "" <==> status == InvalidArgument
      ensures key != "" ==> State() == Step(old(State()), Get(key, now))
      ensures key == "" ==> State() == old(State()) && hits + misses == old(hits + misses)
      ensures status == Ok <==> Hit(old(State()), Get(key, now)) == Some(value)
      ensures key != "" ==> hits + misses == old(hits + misses) + 1 && hits == old(hits) + if status == Ok then 1 else 0
    {
      hide Without;
      StepKeepsValid(State(), Get(key, now));
      WithoutKeeps(lru, key);
      value := "";
      if key == "" { return InvalidArgument, ""; }
      if key !in entries || Expired(entries[key], now) {
        if key in entries {
          lru, entries := Without(lru, key), entries - {key};
        } else {
          assert entries - {key} == entries;
        }
        misses := misses + 1;
        return NotFound, "";
      }
      lru := ToFront(lru, key);
      hits := hits + 1;
      return Ok, entries[key].value;
    }

    method Write(key: string, value: string, ttl: int, now: nat) returns (status: Status)
      requires Valid(State())
      modifies this
      ensures Valid(State()) && hits == old(hits) && misses == old(misses)
      ensures status == if key == "" then InvalidArgument else Ok
      ensures State() == Step(old(State()), Set(key, value, ttl, now))
    {
      hide Without;
      StepKeepsValid(State(), Set(key, value, ttl, now));
      if key == "" { return InvalidArgument; }
      var entry := MakeEntry(value, ttl, now);
      if key in entries {
        entries := entries[key := entry];
        lru := ToFront(lru, key);
        return Ok;
      }
      lru := [key] + lru;
      entries := entries[key := entry];
      if |lru| > capacity {
        var last := lru[|lru| - 1];
        entries := entries - {last};
        lru := lru[..|lru| - 1];
      }
      return Ok;
    }

    method Remove(key: string)
      requires Valid(State())
      modifies this
      ensures Valid(State()) && hits == old(hits) && misses == old(misses)
      ensures State() == Step(old(State()), Erase(key))
    {
      hide Without;
      StepKeepsValid(State(), Erase(key));
      WithoutKeeps(lru, key);
      if key in entries {
        lru, entries := Without(lru, key), entries - {key};
      } else {
        assert entries - {key} == entries;
      }
    }
  }
}
