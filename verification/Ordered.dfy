/** Iteration order of std::map<std::string, ...>: keys in lexicographic order. */
module Ordered {

  predicate LexLe(a: string, b: string) {
    a == "" || (b != "" && (a[0] < b[0] || (a[0] == b[0] && LexLe(a[1..], b[1..]))))
  }

  lemma LexTotal(a: string, b: string)
    ensures LexLe(a, b) || LexLe(b, a)
  {
  }

  lemma LexAntisymmetric(a: string, b: string)
    requires LexLe(a, b) && LexLe(b, a)
    ensures a == b
  {
    if a != "" {
      LexAntisymmetric(a[1..], b[1..]);
      assert a == [a[0]] + a[1..] && b == [b[0]] + b[1..];
    }
  }

  lemma LexTransitive(a: string, b: string, c: string)
    requires LexLe(a, b) && LexLe(b, c)
    ensures LexLe(a, c)
  {
  }

  predicate IsLeast(k: string, keys: set<string>) {
    k in keys && forall j | j in keys :: LexLe(k, j)
  }

  lemma LeastExists(keys: set<string>)
    requires keys != {}
    ensures exists k :: IsLeast(k, keys)
  {
    var x :| x in keys;
    if keys == {x} {
      LexTotal(x, x);
      assert IsLeast(x, keys);
    } else {
      LeastExists(keys - {x});
      var k :| IsLeast(k, keys - {x});
      LexTotal(x, k);
      LexTotal(x, x);
      if LexLe(x, k) {
        forall j | j in keys
          ensures LexLe(x, j)
        {
          if j != x {
            LexTransitive(x, k, j);
          }
        }
        assert IsLeast(x, keys);
      } else {
        assert IsLeast(k, keys);
      }
    }
  }

  function Least(keys: set<string>): (k: string)
    requires keys != {}
    ensures IsLeast(k, keys)
  {
    LeastExists(keys);
    assert forall a, b | IsLeast(a, keys) && IsLeast(b, keys) :: a == b by {
      forall a, b | IsLeast(a, keys) && IsLeast(b, keys)
        ensures a == b
      {
        LexAntisymmetric(a, b);
      }
    }
    var k :| k in keys && IsLeast(k, keys);
    k
  }

  /** The keys in the order a range-for over the map visits them, each once. */
  function SortedKeys(keys: set<string>): (ks: seq<string>)
    ensures forall k :: k in ks <==> k in keys
    ensures forall i, j | 0 <= i < j < |ks| :: LexLe(ks[i], ks[j]) && ks[i] != ks[j]
  {
    if keys == {} then []
    else
      var k := Least(keys);
      var rest := SortedKeys(keys - {k});
      assert forall j | 0 <= j < |rest| :: rest[j] in rest;
      [k] + rest
  }

  /** Dictionary order: a prefix comes first, and otherwise the first difference decides. */
  lemma {:induction false} LexLeMeans(a: string, b: string)
    ensures LexLe(a, b) <==> a <= b || exists i :: DiffersAt(a, b, i) && a[i] < b[i]
  {
    if a != "" && b != "" {
      LexLeMeans(a[1..], b[1..]);
      if a[0] != b[0] {
        assert DiffersAt(a, b, 0);
        assert forall i | DiffersAt(a, b, i) :: i == 0;
      } else {
        assert a <= b <==> a[1..] <= b[1..] by {
          assert a == [a[0]] + a[1..] && b == [b[0]] + b[1..];
        }
        if i :| DiffersAt(a, b, i) && a[i] < b[i] {
          DiffersTail(a, b, i);
        }
        if j :| DiffersAt(a[1..], b[1..], j) && a[1..][j] < b[1..][j] {
          DiffersTail(a, b, j + 1);
        }
      }
    }
  }

  ghost predicate DiffersAt(a: string, b: string, i: int) {
    0 <= i < |a| && i < |b| && a[..i] == b[..i] && a[i] != b[i]
  }

  lemma DiffersTail(a: string, b: string, i: int)
    requires a != "" && b != "" && a[0] == b[0] && i > 0
    ensures DiffersAt(a, b, i) <==> DiffersAt(a[1..], b[1..], i - 1)
  {
    if i < |a| && i < |b| {
      assert a[..i] == [a[0]] + a[1..][..i - 1] && b[..i] == [b[0]] + b[1..][..i - 1];
      assert a[1..][..i - 1] == a[..i][1..] && b[1..][..i - 1] == b[..i][1..];
    }
  }

  lemma {:induction false} SortedKeysCount(keys: set<string>)
    ensures |SortedKeys(keys)| == |keys|
  {
    if keys != {} {
      SortedKeysCount(keys - {Least(keys)});
    }
  }
}
