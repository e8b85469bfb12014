/** Subsequences: what is left of a sequence when elements are taken out and the others keep their order. */
module Subsequence {

  /** `a` is a subsequence of `b`. */
  predicate Sub<T(==)>(a: seq<T>, b: seq<T>)
    decreases |b|
  {
    a == [] || (b != [] && if a[0] == b[0] then Sub(a[1..], b[1..]) else Sub(a, b[1..]))
  }

  lemma {:induction false} SubTail<T>(a: seq<T>, b: seq<T>)
    requires a != [] && Sub(a, b)
    ensures Sub(a[1..], b)
    decreases |b|, 0
  {
    if a[0] != b[0] {
      SubTail(a, b[1..]);
      SubSkip(a[1..], b[1..], b[0]);
    } else {
      SubSkip(a[1..], b[1..], b[0]);
    }
    assert b == [b[0]] + b[1..];
  }

  lemma {:induction false} SubSkip<T>(a: seq<T>, b: seq<T>, x: T)
    requires Sub(a, b)
    ensures Sub(a, [x] + b)
    decreases |b|, 1
  {
    assert ([x] + b)[1..] == b;
    if a != [] && a[0] == x { SubTail(a, b); }
  }

  lemma {:induction false} SubMember<T>(a: seq<T>, b: seq<T>, x: T)
    requires Sub(a, b) && x in a
    ensures x in b
    decreases |b|
  {
    if a[0] == b[0] {
      if x != a[0] { SubMember(a[1..], b[1..], x); }
    } else {
      SubMember(a, b[1..], x);
    }
  }

  lemma SubFront<T>(a: seq<T>, b: seq<T>, x: T)
    requires Sub(a, b)
    ensures Sub([x] + a, [x] + b)
  {
    assert ([x] + a)[1..] == a && ([x] + b)[1..] == b;
  }

  lemma {:induction false} SubLasts<T>(a: seq<T>, b: seq<T>)
    requires Sub(a, b) && a != []
    ensures Sub(a[..|a| - 1], b[..|b| - 1]) && Sub(a[..|a| - 1], b)
    decreases |b|
  {
    if a[0] == b[0] {
      if |a| > 1 {
        SubLasts(a[1..], b[1..]);
        SubFront(a[1..][..|a| - 2], b[1..][..|b| - 2], a[0]);
        SubFront(a[1..][..|a| - 2], b[1..], a[0]);
        assert a[..|a| - 1] == [a[0]] + a[1..][..|a| - 2];
        assert b[..|b| - 1] == [b[0]] + b[1..][..|b| - 2];
        assert b == [b[0]] + b[1..];
      }
    } else {
      SubLasts(a, b[1..]);
      SubSkip(a[..|a| - 1], b[1..][..|b| - 2], b[0]);
      SubSkip(a[..|a| - 1], b[1..], b[0]);
      assert b[..|b| - 1] == [b[0]] + b[1..][..|b| - 2];
      assert b == [b[0]] + b[1..];
    }
  }

  lemma {:induction false} SubSelf<T>(a: seq<T>)
    ensures Sub(a, a)
    decreases |a|
  {
    if a != [] { SubSelf(a[1..]); }
  }

  lemma {:induction false} SubOfSub<T>(a: seq<T>, b: seq<T>, c: seq<T>)
    requires Sub(a, b) && Sub(b, c)
    ensures Sub(a, c)
    decreases |c|
  {
    if a != [] {
      if b[0] == c[0] {
        if a[0] == b[0] {
          SubOfSub(a[1..], b[1..], c[1..]);
        } else {
          SubOfSub(a, b[1..], c[1..]);
        }
      } else {
        SubOfSub(a, b, c[1..]);
        assert c == [c[0]] + c[1..];
        SubSkip(a, c[1..], c[0]);
      }
    }
  }

  lemma {:induction false} SubConcat<T>(a: seq<T>, b: seq<T>, c: seq<T>, d: seq<T>)
    requires Sub(a, b) && Sub(c, d)
    ensures Sub(a + c, b + d)
    decreases |b|
  {
    if b == [] {
      assert a + c == c && b + d == d;
    } else {
      assert (b + d)[1..] == b[1..] + d;
      assert b + d == [b[0]] + (b[1..] + d);
      if a != [] && a[0] == b[0] {
        assert (a + c)[1..] == a[1..] + c;
        SubConcat(a[1..], b[1..], c, d);
      } else {
        SubConcat(a, b[1..], c, d);
        SubSkip(a + c, b[1..] + d, b[0]);
      }
    }
  }

  /** No element occurs more often in a subsequence. */
  lemma {:induction false} SubCounts<T>(a: seq<T>, b: seq<T>)
    requires Sub(a, b)
    ensures multiset(a) <= multiset(b)
    decreases |b|
  {
    if a != [] {
      assert a == [a[0]] + a[1..] && b == [b[0]] + b[1..];
      if a[0] == b[0] { SubCounts(a[1..], b[1..]); } else { SubCounts(a, b[1..]); }
    }
  }
}
