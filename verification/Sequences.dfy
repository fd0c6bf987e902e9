/** Small facts about sequences without repetition. */
module Sequences {

  ghost function Elements<T>(s: seq<T>): set<T> {
    set x <- s
  }

  ghost predicate NoDup<T>(s: seq<T>) {
    s == [] || (s[|s| - 1] !in s[..|s| - 1] && NoDup(s[..|s| - 1]))
  }

  lemma NoDupAppend<T>(s: seq<T>, x: T)
    requires NoDup(s) && x !in s
    ensures NoDup(s + [x])
  {
    assert (s + [x])[..|s|] == s;
  }

  lemma {:induction false} NoDupIndex<T>(s: seq<T>, i: nat, j: nat)
    requires NoDup(s) && i < j < |s|
    ensures s[i] != s[j]
  {
    var t := s[..|s| - 1];
    if j == |s| - 1 {
      assert t[i] == s[i];
    } else {
      NoDupIndex(t, i, j);
    }
  }

  lemma ElementsAppend<T>(s: seq<T>, x: T)
    ensures Elements(s + [x]) == Elements(s) + {x}
  {
    forall y ensures y in Elements(s + [x]) <==> y in Elements(s) + {x} {
      assert y in s + [x] <==> y in s || y == x;
    }
  }

  lemma {:induction false} NoDupSize<T>(s: seq<T>)
    requires NoDup(s)
    ensures |Elements(s)| == |s|
  {
    if s == [] {
      assert Elements(s) == {};
    } else {
      var t, x := s[..|s| - 1], s[|s| - 1];
      NoDupSize(t);
      ElementsAppend(t, x);
      assert t + [x] == s;
    }
  }

  lemma {:induction false} DistinctIsNoDup<T>(s: seq<T>)
    requires forall i, j | 0 <= i < j < |s| :: s[i] != s[j]
    ensures NoDup(s)
  {
    if s != [] { DistinctIsNoDup(s[..|s| - 1]); }
  }

  lemma NotBefore<T>(s: seq<T>, i: nat)
    requires NoDup(s) && i < |s|
    ensures s[i] !in s[..i]
  {
    forall j | 0 <= j < i ensures s[j] != s[i] { NoDupIndex(s, j, i); }
  }

  /** What comes before `x` in a list without repetition. */
  function UpTo<T(==)>(s: seq<T>, x: T): seq<T> {
    if s == [] then []
    else if s[|s| - 1] == x then s[..|s| - 1]
    else UpTo(s[..|s| - 1], x)
  }

  lemma {:induction false} UpToIs<T>(s: seq<T>, i: nat)
    requires NoDup(s) && i < |s|
    ensures UpTo(s, s[i]) == s[..i]
  {
    var t := s[..|s| - 1];
    if i < |t| {
      NoDupIndex(s, i, |t|);
      UpToIs(t, i);
      assert t[..i] == s[..i];
    }
  }

  lemma Associate<T>(a: seq<T>, b: seq<T>, c: seq<T>)
    ensures a + (b + c) == a + b + c
  {}

  lemma {:induction false} SubsetCount<T>(a: set<T>, b: set<T>)
    requires a <= b
    ensures |a| <= |b|
    decreases a
  {
    if a != {} {
      var x :| x in a;
      SubsetCount(a - {x}, b - {x});
    }
  }

  lemma SameSize<T>(a: set<T>, b: set<T>)
    requires a <= b && |a| == |b|
    ensures a == b
  {
    if a != b {
      var x :| x in b && x !in a;
      SubsetCount(a, b - {x});
    }
  }

  function Map<T, U>(f: T -> U, s: seq<T>): (r: seq<U>)
    ensures |r| == |s| && forall i | 0 <= i < |s| :: r[i] == f(s[i])
  {
    seq(|s|, i requires 0 <= i < |s| => f(s[i]))
  }

  lemma Around<T>(p: seq<T>, x: T, q: seq<T>)
    ensures multiset(p + ([x] + q)) == multiset(p + q) + multiset{x}
  {}

  lemma MapAppend<T, U>(f: T -> U, a: seq<T>, b: seq<T>)
    ensures Map(f, a + b) == Map(f, a) + Map(f, b)
  {}

  lemma MapAround<T, U>(f: T -> U, p: seq<T>, x: T, q: seq<T>)
    ensures multiset(Map(f, p + ([x] + q))) == multiset(Map(f, p + q)) + multiset{f(x)}
  {
    MapAppend(f, p, [x] + q);
    MapAppend(f, [x], q);
    MapAppend(f, p, q);
    assert Map(f, [x]) == [f(x)];
    Around(Map(f, p), f(x), Map(f, q));
  }

  lemma MapStep<T, U>(f: T -> U, x: T, rest: seq<T>, p: seq<T>, q: seq<T>)
    requires multiset(Map(f, rest)) == multiset(Map(f, p + q))
    ensures multiset(Map(f, [x] + rest)) == multiset(Map(f, p + ([x] + q)))
  {
    MapAround(f, [], x, rest);
    assert [] + ([x] + rest) == [x] + rest && [] + rest == rest;
    MapAround(f, p, x, q);
  }

  lemma Pick<T>(s: seq<T>, x: T) returns (p: seq<T>, q: seq<T>)
    requires x in multiset(s)
    ensures s == p + ([x] + q)
  {
    var j :| 0 <= j < |s| && s[j] == x;
    p, q := s[..j], s[j + 1..];
  }

  /** Mapping a permutation gives a permutation. */
  lemma {:induction false} MapPermutes<T, U>(f: T -> U, a: seq<T>, b: seq<T>)
    requires multiset(a) == multiset(b)
    ensures multiset(Map(f, a)) == multiset(Map(f, b))
    decreases |a|
  {
    if a == [] {
      assert |multiset(b)| == |b| == 0;
    } else {
      var x, rest := a[0], a[1..];
      assert a == [x] + rest && x in multiset(a);
      var p, q := Pick(b, x);
      RestPermutes(x, rest, p, q);
      MapPermutes(f, rest, p + q);
      MapStep(f, x, rest, p, q);
    }
  }

  lemma RestPermutes<T>(x: T, rest: seq<T>, p: seq<T>, q: seq<T>)
    requires multiset([x] + rest) == multiset(p + ([x] + q))
    ensures multiset(rest) == multiset(p + q)
  {
    Around(p, x, q);
    Cancel(multiset(rest), multiset(p + q), multiset{x});
  }

  lemma Cancel<T>(a: multiset<T>, b: multiset<T>, c: multiset<T>)
    requires c + a == b + c
    ensures a == b
  {
    forall x ensures a[x] == b[x] { assert (c + a)[x] == c[x] + a[x] && (b + c)[x] == b[x] + c[x]; }
  }

  lemma {:induction false} SameElements<T>(a: seq<T>, b: seq<T>)
    requires NoDup(a) && NoDup(b) && (forall x :: x in a <==> x in b)
    ensures multiset(a) == multiset(b)
  {
    forall x ensures multiset(a)[x] == multiset(b)[x] {
      CountOnce(a, x);
      CountOnce(b, x);
    }
  }

  lemma {:induction false} CountOnce<T>(s: seq<T>, x: T)
    requires NoDup(s)
    ensures multiset(s)[x] == if x in s then 1 else 0
  {
    if s != [] {
      var n := |s| - 1;
      CountOnce(s[..n], x);
      assert s == s[..n] + [s[n]];
    }
  }

  /** The keys of a map in some iteration order; nothing more is known about the order. */
  method IterationOrder<T(==)>(keys: set<T>) returns (order: seq<T>)
    ensures NoDup(order) && Elements(order) == keys
  {
    order := [];
    var rest := keys;
    while rest != {}
      invariant NoDup(order) && Elements(order) !! rest && Elements(order) + rest == keys
      decreases rest
    {
      var k :| k in rest;
      rest := rest - {k};
      NoDupAppend(order, k);
      ElementsAppend(order, k);
      order := order + [k];
    }
  }

  lemma SameMap<K, V>(a: map<K, V>, b: map<K, V>)
    requires forall k :: (k in a <==> k in b) && (k in a && k in b ==> a[k] == b[k])
    ensures a == b
  {
    assert a.Keys == b.Keys;
  }
}
