/** What a BLOB lexeme is (src/fidi_scanner.ll:111-119), said without the scanner. */
module Blobs {
  import opened Lexical
  import opened Scanner

  /** Open brackets minus close brackets of `s`, starting from `depth`. */
  function Depth(s: string, depth: int): int {
    if s == "" then depth else NextDepth(s[|s| - 1], Depth(s[..|s| - 1], depth))
  }

  /** `n` characters bring the depth to zero, and no shorter nonempty prefix does. */
  ghost predicate Closes(s: string, depth: nat, n: nat) {
    && 0 < n <= |s|
    && Depth(s[..n], depth) == 0
    && forall i | 0 <= i < n :: Depth(s[..i], depth) > 0
  }

  lemma {:induction false} DepthHead(s: string, depth: int)
    requires s != ""
    ensures Depth(s, depth) == Depth(s[1..], NextDepth(s[0], depth))
  {
    var t := s[..|s| - 1];
    if t == "" {
      assert Depth(s[1..], NextDepth(s[0], depth)) == NextDepth(s[0], depth);
    } else {
      DepthHead(t, depth);
      assert s[1..][..|s[1..]| - 1] == t[1..];
    }
  }

  /** The extent of a blob is exact: the scanner's length is the only one that closes the bracket. */
  lemma {:induction false} BlobExtent(s: string, depth: nat, n: nat)
    requires depth > 0
    ensures BlobLength(s, depth) == Some(n) <==> Closes(s, depth, n)
  {
    if s != "" && n > 0 {
      var d := NextDepth(s[0], depth);
      forall i | 0 < i <= |s|
        ensures Depth(s[..i], depth) == Depth(s[1..][..i - 1], d)
      {
        DepthHead(s[..i], depth);
        assert s[..i][1..] == s[1..][..i - 1];
      }
      if d > 0 {
        BlobExtent(s[1..], d, n - 1);
        if Closes(s, depth, n) {
          assert forall i | 0 <= i < n - 1 :: Depth(s[1..][..i], d) == Depth(s[..i + 1], depth);
        }
        if Closes(s[1..], d, n - 1) {
          forall i | 0 <= i < n
            ensures Depth(s[..i], depth) > 0
          {
            if i > 0 {
              assert Depth(s[1..][..i - 1], d) > 0;
            }
          }
        }
      } else {
        assert Depth(s[..1], depth) == 0;
      }
    }
  }

  // ---------- text that comes out of its brackets as it went in ----------

  /** Depth after `s`, or None if it ever falls below zero or a NUL cuts the text off. */
  function Height(s: string, h: nat): Option<nat> {
    if s == "" then Some(h)
    else if s[0] == '\0' || NextDepth(s[0], h) < 0 then None
    else Height(s[1..], NextDepth(s[0], h))
  }

  /** The brackets balance and there is no NUL. */
  predicate Intact(s: string) {
    Height(s, 0) == Some(0)
  }

  lemma {:induction false} HeightNulFree(s: string, h: nat)
    requires Height(s, h).Some?
    ensures NulFree(s)
  {
    if s != "" {
      HeightNulFree(s[1..], NextDepth(s[0], h));
      assert s == [s[0]] + s[1..];
    }
  }

  lemma {:induction false} HeightAppend(a: string, b: string, h: nat)
    requires Height(a, h).Some?
    ensures Height(a + b, h) == Height(b, Height(a, h).value)
  {
    if a == "" {
      assert a + b == b;
    } else {
      assert (a + b)[1..] == a[1..] + b;
      HeightAppend(a[1..], b, NextDepth(a[0], h));
    }
  }

  lemma PlainIsIntact(a: string)
    requires NulFree(a) && forall i | 0 <= i < |a| :: a[i] != '[' && a[i] != ']'
    ensures Intact(a)
  {
    if a != "" {
      assert forall i | 0 <= i < |a[1..]| :: a[1..][i] == a[i + 1];
      PlainIsIntact(a[1..]);
    }
  }

  lemma {:induction false} BlobAfter(a: string, b: string, h: nat)
    ensures BlobLength(a + "]" + b, h + 1) == Some(|a| + 1) && NulFree(a) <==> Height(a, h) == Some(0)
  {
    if a == "" {
      assert a + "]" + b == "]" + b;
    } else {
      assert (a + "]" + b)[1..] == a[1..] + "]" + b;
      assert a == [a[0]] + a[1..];
      NulFreeAppend([a[0]], a[1..]);
      if NextDepth(a[0], h) >= 0 {
        BlobAfter(a[1..], b, NextDepth(a[0], h));
      }
    }
  }

  /** A text between brackets is one blob and has no NUL, whatever follows, exactly if it is intact. */
  lemma IntactBlob(a: string, b: string)
    ensures BlobLength(a + "]" + b, 1) == Some(|a| + 1) && NulFree(a) <==> Intact(a)
  {
    BlobAfter(a, b, 0);
  }

  /** The depth is the number of opening brackets less the number of closing ones. */
  lemma {:induction false} DepthCounts(s: string, depth: int)
    ensures Depth(s, depth) == depth + multiset(s)['['] - multiset(s)[']']
  {
    if s != "" {
      var n := |s| - 1;
      DepthCounts(s[..n], depth);
      assert s == s[..n] + [s[n]];
    }
  }
}
