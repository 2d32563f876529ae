/** Facts about sequences that proofs by recursion use again and again. */
module Sequences {

  lemma Associate<X>(a: seq<X>, b: seq<X>, c: seq<X>)
    ensures a + (b + c) == a + b + c
  {
  }

  lemma Tail<X>(a: seq<X>, b: seq<X>)
    requires a != []
    ensures (a + b)[0] == a[0] && (a + b)[1..] == a[1..] + b
  {
  }

  lemma Cons<X>(x: X, s: seq<X>)
    ensures ([x] + s)[0] == x && ([x] + s)[1..] == s
  {
  }

  lemma Snoc<X>(s: seq<X>, x: X)
    ensures (s + [x])[..|s|] == s && (s + [x])[|s|] == x
  {
  }

  lemma Front<X>(s: seq<X>)
    requires s != []
    ensures s == s[..|s| - 1] + [s[|s| - 1]]
  {
  }

  lemma Two<X>(a: X, b: X, rest: seq<X>)
    ensures [a] + ([b] + rest) == [a, b] + rest
  {
  }

  lemma Three<X>(a: X, b: X, c: X, rest: seq<X>)
    ensures [a] + ([b] + ([c] + rest)) == [a, b, c] + rest
  {
  }

  lemma SliceOfRest<X>(s: seq<X>, i: nat, j: nat, k: nat)
    requires j <= k && i + k <= |s|
    ensures s[i..][j..k] == s[i + j..i + k] && s[i..][k..] == s[i + k..]
  {
  }

  lemma Middle<X>(s: seq<X>, i: nat)
    requires i < |s|
    ensures s == s[..i] + ([s[i]] + s[i + 1..])
  {
  }

  function Without<X>(s: seq<X>, i: nat): seq<X>
    requires i < |s|
  {
    s[..i] + s[i + 1..]
  }

  /** Taking one element out of the middle. */
  lemma Remove<X>(s: seq<X>, i: nat)
    requires i < |s|
    ensures multiset(Without(s, i)) == multiset(s) - multiset{s[i]}
    ensures multiset(Without(s, i)) + multiset{s[i]} == multiset(s)
    ensures forall x | x in Without(s, i) :: x in s
  {
    Middle(s, i);
  }

  lemma SameWithout<X>(a: seq<X>, b: seq<X>, i: nat)
    requires a != [] && multiset(a) == multiset(b) && i < |b| && b[i] == a[0]
    ensures multiset(a[1..]) == multiset(Without(b, i))
  {
    Remove(a, 0);
    Remove(b, i);
    assert Without(a, 0) == a[1..];
    hide Without;
  }

  lemma Append<X>(a: seq<X>, b: seq<X>)
    ensures multiset(a + b) == multiset(a) + multiset(b)
  {
  }

  lemma Members<X>(a: seq<X>, b: seq<X>)
    requires multiset(a) == multiset(b)
    ensures forall x :: x in a <==> x in b
    ensures |a| == |b|
  {
    assert forall x :: x in a <==> x in multiset(a);
    assert forall x :: x in b <==> x in multiset(b);
    assert |multiset(a)| == |a| && |multiset(b)| == |b|;
  }
}
