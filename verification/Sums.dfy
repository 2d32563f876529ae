/** Sums of multisets over sequences, and their independence of order. */
module Sums {
  import opened Sequences

  ghost function SumOver<A, X>(f: A -> multiset<X>, s: seq<A>): multiset<X> {
    if s == [] then multiset{} else f(s[0]) + SumOver(f, s[1..])
  }

  lemma SumCons<A, X>(f: A -> multiset<X>, s: seq<A>, head: seq<X>, tail: seq<X>)
    requires s != [] && multiset(head) == f(s[0]) && multiset(tail) == SumOver(f, s[1..])
    ensures multiset(head + tail) == SumOver(f, s)
  {
  }

  lemma {:induction false} SumAppend<A, X>(f: A -> multiset<X>, a: seq<A>, b: seq<A>)
    ensures SumOver(f, a + b) == SumOver(f, a) + SumOver(f, b)
  {
    if a == [] {
      assert a + b == b;
    } else {
      assert (a + b)[1..] == a[1..] + b;
      SumAppend(f, a[1..], b);
    }
  }

  lemma SumMiddle<A, X>(f: A -> multiset<X>, a: seq<A>, x: A, b: seq<A>)
    ensures SumOver(f, a + ([x] + b)) == f(x) + SumOver(f, a + b)
  {
    SumAppend(f, a, b);
    SumAppend(f, a, [x] + b);
    Cons(x, b);
  }

  lemma SumRemove<A, X>(f: A -> multiset<X>, s: seq<A>, i: nat)
    requires i < |s|
    ensures SumOver(f, s) == f(s[i]) + SumOver(f, Without(s, i))
  {
    Middle(s, i);
    SumMiddle(f, s[..i], s[i], s[i + 1..]);
  }

  /** The sum depends on how often each element occurs, not on the order. */
  lemma {:induction false} SumPermutation<A, X>(f: A -> multiset<X>, a: seq<A>, b: seq<A>)
    requires multiset(a) == multiset(b)
    ensures SumOver(f, a) == SumOver(f, b)
  {
    Members(a, b);
    if a != [] {
      assert a[0] in b;
      var i :| 0 <= i < |b| && b[i] == a[0];
      SameWithout(a, b, i);
      SumPermutation(f, a[1..], Without(b, i));
      SumRemove(f, b, i);
    }
  }

  /** `n` copies of `s`, one after the other. */
  function Times<X>(n: nat, s: seq<X>): seq<X> {
    if n == 0 then [] else s + Times(n - 1, s)
  }

  lemma {:induction false} TimesOfOne<X>(n: nat, x: X)
    ensures |Times(n, [x])| == n && forall k | 0 <= k < n :: Times(n, [x])[k] == x
  {
    if n > 0 {
      TimesOfOne(n - 1, x);
    }
  }

  lemma {:induction false} TimesCount<X>(n: nat, s: seq<X>, x: X)
    ensures multiset(Times(n, s))[x] == n * multiset(s)[x]
  {
    if n > 0 {
      TimesCount(n - 1, s, x);
      var m := multiset(s)[x];
      assert n * m == m + (n - 1) * m;
    }
  }

  lemma {:induction false} SumTimes<A, X>(f: A -> multiset<X>, n: nat, a: A, s: seq<X>)
    requires f(a) == multiset(s)
    ensures SumOver(f, Times(n, [a])) == multiset(Times(n, s))
  {
    if n > 0 {
      SumTimes(f, n - 1, a, s);
      SumAppend(f, [a], Times(n - 1, [a]));
      assert [a][1..] == [];
    }
  }

  predicate All<A>(p: A -> bool, s: seq<A>) {
    s == [] || (p(s[0]) && All(p, s[1..]))
  }

  lemma {:induction false} AllAt<A>(p: A -> bool, s: seq<A>)
    ensures All(p, s) <==> forall a | a in s :: p(a)
  {
    if s != [] {
      AllAt(p, s[1..]);
      assert forall a :: a in s <==> a == s[0] || a in s[1..];
    }
  }

  lemma AllPermutation<A>(p: A -> bool, a: seq<A>, b: seq<A>)
    requires multiset(a) == multiset(b)
    ensures All(p, a) <==> All(p, b)
  {
    AllAt(p, a);
    AllAt(p, b);
    Members(a, b);
  }
}
