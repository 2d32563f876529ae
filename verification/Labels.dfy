/** Edge labels of the linter's graph: the sequence numbers of all calls leading to a request. */
module Labels {
  import opened Lexical

  /** `1`, then the sequence numbers on the path, each after a dot. */
  function Label(path: seq<nat>): string {
    if path == [] then "1" else Label(path[..|path| - 1]) + "." + Decimal(path[|path| - 1])
  }

  /** How `Execute` extends its own label for a call. */
  lemma LabelSnoc(path: seq<nat>, n: nat)
    ensures Label(path + [n]) == Label(path) + "." + Decimal(n)
  {
    assert (path + [n])[..|path|] == path;
  }

  lemma DecimalHasNoDot(n: nat)
    ensures '.' !in Decimal(n)
  {
    assert forall i | 0 <= i < |Decimal(n)| :: IsDigit(Decimal(n)[i]);
  }

  /** The last dot of a text splits it in one way only. */
  lemma LastDot(x: string, d: string, y: string, e: string)
    requires x + "." + d == y + "." + e && '.' !in d && '.' !in e
    ensures x == y && d == e
  {
    var s := x + "." + d;
    assert s[|x|] == '.' && s[|y|] == '.';
    assert forall i | |x| < i < |s| :: s[i] == d[i - |x| - 1];
    assert forall i | |y| < i < |s| :: s[i] == e[i - |y| - 1];
    assert |x| == |y|;
    assert x == s[..|x|] && y == s[..|y|];
    assert d == s[|x| + 1..] && e == s[|y| + 1..];
  }

  /** Labels decode: equal labels come from equal sequences of sequence numbers. */
  lemma {:induction false} LabelInjective(a: seq<nat>, b: seq<nat>)
    ensures Label(a) == Label(b) <==> a == b
  {
    if Label(a) == Label(b) {
      if a == [] || b == [] {
        DotFree(a);
        DotFree(b);
      } else {
        var m, n := |a| - 1, |b| - 1;
        DecimalHasNoDot(a[m]);
        DecimalHasNoDot(b[n]);
        LastDot(Label(a[..m]), Decimal(a[m]), Label(b[..n]), Decimal(b[n]));
        DecimalInjective(a[m], b[n]);
        LabelInjective(a[..m], b[..n]);
        assert a == a[..m] + [a[m]] && b == b[..n] + [b[n]];
      }
    }
  }

  lemma DotFree(a: seq<nat>)
    ensures '.' !in Label(a) <==> a == []
  {
    if a != [] {
      var m := |a| - 1;
      assert Label(a)[|Label(a[..m])|] == '.';
    }
  }

  /** A text split at its dots. */
  function Parts(s: string): seq<string>
    decreases |s|
  {
    match IndexOf(s, '.')
    case None => [s]
    case Some(i) => [s[..i]] + Parts(s[i + 1..])
  }

  lemma {:induction false} PartsSnoc(x: string, d: string)
    requires '.' !in d
    ensures Parts(x + "." + d) == Parts(x) + [d]
    decreases |x|
  {
    var s := x + "." + d;
    match IndexOf(x, '.')
    case None =>
      IndexOfUnique(s, '.', |x|);
      assert s[..|x|] == x && s[|x| + 1..] == d;
      assert Parts(d) == [d];
    case Some(i) =>
      IndexOfUnique(s, '.', i);
      assert s[..i] == x[..i] && s[i + 1..] == x[i + 1..] + "." + d;
      PartsSnoc(x[i + 1..], d);
  }

  /** A label is 1 and the sequence numbers on the way, each behind a dot. */
  lemma {:induction false} LabelParts(path: seq<nat>)
    ensures |Parts(Label(path))| == 1 + |path| && Parts(Label(path))[0] == "1"
    ensures forall i | 0 <= i < |path| :: Parts(Label(path))[i + 1] == Decimal(path[i])
  {
    if path == [] {
      OnePart("1");
    } else {
      var n := |path| - 1;
      LabelParts(path[..n]);
      DecimalHasNoDot(path[n]);
      assert Label(path) == Label(path[..n]) + "." + Decimal(path[n]);
      hide Parts, Decimal, Label;
      PartsSnoc(Label(path[..n]), Decimal(path[n]));
      assert forall i | 0 <= i < n :: path[..n][i] == path[i];
    }
  }

  lemma OnePart(s: string)
    requires '.' !in s
    ensures Parts(s) == [s]
  {
    assert IndexOf(s, '.').None?;
  }
}
