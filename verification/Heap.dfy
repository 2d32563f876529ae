/**
 The priority queue behind `edge_attributes_`: std::priority_queue is push_heap and pop_heap on a
 vector, ordered by `EdgeComparison` (src/fidi_driver.h:236-252, 283-285).
 */
module Heap {
  import opened Actions

  /** `EdgeComparison`: true if `a` is sorted later than `b`. */
  predicate Later(a: EdgeDetails, b: EdgeDetails) {
    a.sequence > b.sequence
  }

  function Parent(i: int): int {
    (i - 1) / 2
  }

  predicate InOrder(h: seq<EdgeDetails>, k: int)
    requires 0 < k < |h|
  {
    !Later(h[Parent(k)], h[k])
  }

  predicate IsHeap(h: seq<EdgeDetails>) {
    forall k | 0 < k < |h| :: InOrder(h, k)
  }

  /** A heap but for the element at `i`, which may come too late above or too early below. */
  predicate HeapAbove(h: seq<EdgeDetails>, i: int) {
    && 0 <= i < |h|
    && (forall k | 0 < k < |h| && k != i :: InOrder(h, k))
    && (i > 0 ==> forall k | 0 < k < |h| && Parent(k) == i :: !Later(h[Parent(i)], h[k]))
  }

  predicate HeapBelow(h: seq<EdgeDetails>, i: int) {
    && 0 <= i < |h|
    && (forall k | 0 < k < |h| && Parent(k) != i :: InOrder(h, k))
    && (i > 0 ==> forall k | 0 < k < |h| && Parent(k) == i :: !Later(h[Parent(i)], h[k]))
  }

  /** `top` is an edge with the smallest sequence number. */
  lemma {:induction false} TopIsFirst(h: seq<EdgeDetails>, i: nat)
    requires IsHeap(h) && i < |h|
    ensures h[0].sequence <= h[i].sequence
  {
    if i > 0 {
      TopIsFirst(h, Parent(i));
      assert InOrder(h, i);
    }
  }

  function Swap(h: seq<EdgeDetails>, i: nat, j: nat): (r: seq<EdgeDetails>)
    requires i < |h| && j < |h|
    ensures |r| == |h| && r[i] == h[j] && r[j] == h[i]
    ensures forall k | 0 <= k < |h| && k != i && k != j :: r[k] == h[k]
    ensures multiset(r) == multiset(h)
  {
    h[i := h[j]][j := h[i]]
  }

  lemma SwapUp(h: seq<EdgeDetails>, i: nat)
    requires HeapAbove(h, i) && i > 0 && !InOrder(h, i)
    ensures HeapAbove(Swap(h, i, Parent(i)), Parent(i))
  {
    var p := Parent(i);
    var r := Swap(h, i, p);
    forall k | 0 < k < |r| && k != p
      ensures InOrder(r, k)
    {
      assert k != i ==> InOrder(h, k);
    }
    forall k | 0 < k < |r| && Parent(k) == p && p > 0
      ensures !Later(r[Parent(p)], r[k])
    {
      assert InOrder(h, p);
      assert k != i ==> InOrder(h, k);
    }
  }

  lemma SwapDown(h: seq<EdgeDetails>, i: nat, c: nat)
    requires HeapBelow(h, i) && 0 < c < |h| && Parent(c) == i && !InOrder(h, c)
    requires forall k | 0 < k < |h| && Parent(k) == i :: !Later(h[c], h[k])
    ensures HeapBelow(Swap(h, i, c), c)
  {
    var r := Swap(h, i, c);
    forall k | 0 < k < |r| && Parent(k) != c
      ensures InOrder(r, k)
    {
      assert Parent(k) != i ==> InOrder(h, k);
    }
    forall k | 0 < k < |r| && Parent(k) == c
      ensures !Later(r[Parent(c)], r[k])
    {
      assert InOrder(h, k);
    }
  }

  method Push(h: seq<EdgeDetails>, e: EdgeDetails) returns (r: seq<EdgeDetails>)
    requires IsHeap(h)
    ensures IsHeap(r)
    ensures multiset(r) == multiset(h) + multiset{e}
  {
    r := h + [e];
    var i := |h|;
    assert HeapAbove(r, i) by {
      assert forall k | 0 < k < |h| :: InOrder(h, k) ==> InOrder(r, k);
    }
    while i > 0 && Later(r[Parent(i)], r[i])
      invariant HeapAbove(r, i)
      invariant multiset(r) == multiset(h) + multiset{e}
    {
      SwapUp(r, i);
      r, i := Swap(r, i, Parent(i)), Parent(i);
    }
  }

  method Pop(h: seq<EdgeDetails>) returns (r: seq<EdgeDetails>)
    requires IsHeap(h) && h != []
    ensures IsHeap(r)
    ensures multiset(r) == multiset(h) - multiset{h[0]}
  {
    if |h| == 1 {
      assert h == [h[0]];
      return [];
    }
    r := MoveLast(h);
    forall k | 0 < k < |r| && Parent(k) != 0
      ensures InOrder(r, k)
    {
      assert InOrder(h, k);
    }
    r := SiftDown(r);
  }

  /** The child of `i` that comes first. */
  function FirstChild(h: seq<EdgeDetails>, i: nat): (c: nat)
    requires 2 * i + 1 < |h|
    ensures 0 < c < |h| && Parent(c) == i
    ensures forall k | 0 < k < |h| && Parent(k) == i :: !Later(h[c], h[k])
  {
    var c := 2 * i + 1;
    assert forall k | 0 < k < |h| && Parent(k) == i :: k == c || k == c + 1;
    if c + 1 < |h| && Later(h[c], h[c + 1]) then c + 1 else c
  }

  method SiftDown(h: seq<EdgeDetails>) returns (r: seq<EdgeDetails>)
    requires HeapBelow(h, 0)
    ensures IsHeap(r)
    ensures multiset(r) == multiset(h)
  {
    r := h;
    var i := 0;
    while 2 * i + 1 < |r|
      invariant HeapBelow(r, i)
      invariant multiset(r) == multiset(h)
      decreases |r| - i
    {
      var child := FirstChild(r, i);
      if !Later(r[i], r[child]) {
        forall k | 0 < k < |r|
          ensures InOrder(r, k)
        {
        }
        return;
      }
      SwapDown(r, i, child);
      r, i := Swap(r, i, child), child;
    }
  }

  /** The last element takes the place of the first. */
  function MoveLast(h: seq<EdgeDetails>): (r: seq<EdgeDetails>)
    requires |h| > 1
    ensures |r| == |h| - 1 && r[0] == h[|h| - 1]
    ensures forall k | 0 < k < |r| :: r[k] == h[k]
    ensures multiset(r) == multiset(h) - multiset{h[0]}
  {
    var n := |h| - 1;
    assert h == [h[0]] + (h[1..n] + [h[n]]);
    [h[n]] + h[1..n]
  }
}
