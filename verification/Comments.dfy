/** The COMMENT pattern of src/fidi_scanner.ll:84, as a regular expression. */
module Comments {
  import opened Lexical
  import opened Scanner

  datatype Regex =
    | Lit(c: char)
    | NotIn(cs: set<char>)
    | Cat(first: Regex, second: Regex)
    | Star(r: Regex)

  function Plus(r: Regex): Regex {
    Cat(r, Star(r))
  }

  /** The language of a regular expression. */
  ghost predicate Matches(r: Regex, s: string)
    decreases r, |s|
  {
    match r
    case Lit(c) => s == [c]
    case NotIn(cs) => |s| == 1 && s[0] !in cs
    case Cat(a, b) => exists i | 0 <= i <= |s| :: Matches(a, s[..i]) && Matches(b, s[i..])
    case Star(a) => s == "" || exists i | 0 < i <= |s| :: Matches(a, s[..i]) && Matches(r, s[i..])
  }

  const NOT_STARS: Regex := Star(NotIn({'*'}))
  const STARS: Regex := Plus(Lit('*'))
  const RUN: Regex := Cat(NOT_STARS, STARS)
  const GROUP: Regex := Cat(NotIn({'*', '/'}), RUN)
  const INNER: Regex := Cat(RUN, Star(GROUP))
  const COMMENT: Regex := Cat(Lit('/'), Cat(Lit('*'), Cat(INNER, Lit('/'))))

  // ---------- the parts ----------

  lemma {:induction false} NotStarsMatch(s: string)
    ensures Matches(NOT_STARS, s) <==> '*' !in s
  {
    if s != "" {
      var a := NotIn({'*'});
      NotStarsMatch(s[1..]);
      assert s == s[..1] + s[1..];
      if Matches(NOT_STARS, s) {
        var i :| 0 < i <= |s| && Matches(a, s[..i]) && Matches(NOT_STARS, s[i..]);
        assert i == 1;
      }
      if '*' !in s {
        assert Matches(a, s[..1]) && Matches(NOT_STARS, s[1..]);
      }
    }
  }

  ghost predicate AllStars(s: string) {
    forall i | 0 <= i < |s| :: s[i] == '*'
  }

  lemma {:induction false} StarStarMatch(s: string)
    ensures Matches(Star(Lit('*')), s) <==> AllStars(s)
  {
    if s != "" {
      StarStarMatch(s[1..]);
      assert s == s[..1] + s[1..];
      if Matches(Star(Lit('*')), s) {
        var i :| 0 < i <= |s| && Matches(Lit('*'), s[..i]) && Matches(Star(Lit('*')), s[i..]);
        assert i == 1;
        assert forall k | 1 <= k < |s| :: s[k] == s[1..][k - 1];
      }
      if AllStars(s) {
        assert Matches(Lit('*'), s[..1]) && Matches(Star(Lit('*')), s[1..]);
      }
    }
  }

  lemma StarsMatch(s: string)
    ensures Matches(STARS, s) <==> s != "" && AllStars(s)
  {
    if Matches(STARS, s) {
      var i :| 0 <= i <= |s| && Matches(Lit('*'), s[..i]) && Matches(Star(Lit('*')), s[i..]);
      assert i == 1;
      StarStarMatch(s[1..]);
      assert forall k | 1 <= k < |s| :: s[k] == s[1..][k - 1];
    }
    if s != "" && AllStars(s) {
      StarStarMatch(s[1..]);
      assert Matches(Lit('*'), s[..1]) && Matches(Star(Lit('*')), s[1..]);
    }
  }

  /** Some characters that are no stars, then at least one star and nothing else. */
  ghost predicate RunAt(s: string, i: nat) {
    i < |s| && '*' !in s[..i] && AllStars(s[i..])
  }

  lemma RunMatch(s: string)
    ensures Matches(RUN, s) <==> exists i: nat :: RunAt(s, i)
  {
    if Matches(RUN, s) {
      var i :| 0 <= i <= |s| && Matches(NOT_STARS, s[..i]) && Matches(STARS, s[i..]);
      NotStarsMatch(s[..i]);
      StarsMatch(s[i..]);
      assert RunAt(s, i);
    }
    if i: nat :| RunAt(s, i) {
      NotStarsMatch(s[..i]);
      StarsMatch(s[i..]);
      assert Matches(NOT_STARS, s[..i]) && Matches(STARS, s[i..]);
    }
  }

  /** Ends in a star and nowhere closes a comment. */
  ghost predicate Open(s: string) {
    && s != "" && s[|s| - 1] == '*'
    && forall i | 0 <= i < |s| - 1 :: !(s[i] == '*' && s[i + 1] == '/')
  }

  lemma RunIsOpen(s: string, i: nat)
    requires RunAt(s, i)
    ensures Open(s)
  {
    assert s[|s| - 1] == s[i..][|s| - 1 - i];
    forall k | 0 <= k < |s| - 1
      ensures !(s[k] == '*' && s[k + 1] == '/')
    {
      if k < i {
        assert s[k] == s[..i][k];
      } else {
        assert s[k + 1] == s[i..][k + 1 - i];
      }
    }
  }

  lemma OpenAppend(a: string, b: string)
    requires Open(a) && (b == "" || (b[0] != '/' && Open(b)))
    ensures Open(a + b)
  {
    var s := a + b;
    if b == "" {
      assert s == a;
    } else {
      forall k | 0 <= k < |s| - 1
        ensures !(s[k] == '*' && s[k + 1] == '/')
      {
        if k >= |a| {
          assert s[k] == b[k - |a|] && s[k + 1] == b[k + 1 - |a|];
        }
      }
    }
  }

  /** An open text splits into a first run and an open rest that starts with neither star nor slash. */
  lemma {:induction false} FirstRun(s: string) returns (n: nat)
    requires Open(s)
    ensures 0 < n <= |s| && Matches(RUN, s[..n])
    ensures s[n..] == "" || (s[n] != '*' && s[n] != '/' && Open(s[n..]))
  {
    var i := IndexOf(s, '*').value;
    n := i + 1;
    while n < |s| && s[n] == '*'
      invariant i < n <= |s| && forall k | i <= k < n :: s[k] == '*'
    {
      n := n + 1;
    }
    assert RunAt(s[..n], i);
    RunMatch(s[..n]);
    if n < |s| {
      assert s[n - 1] == '*';
      assert forall k | 0 <= k < |s[n..]| :: s[n..][k] == s[n + k];
    }
  }

  ghost predicate OpenGroups(s: string) {
    s == "" || (s[0] != '*' && s[0] != '/' && Open(s))
  }

  lemma GroupIsOpen(s: string)
    requires Matches(GROUP, s)
    ensures OpenGroups(s) && s != ""
  {
    var i :| 0 <= i <= |s| && Matches(NotIn({'*', '/'}), s[..i]) && Matches(RUN, s[i..]);
    assert i == 1;
    RunMatch(s[1..]);
    var k: nat :| RunAt(s[1..], k);
    RunIsOpen(s[1..], k);
    assert s == [s[0]] + s[1..];
    forall j | 0 <= j < |s| - 1
      ensures !(s[j] == '*' && s[j + 1] == '/')
    {
      if j > 0 {
        assert s[j] == s[1..][j - 1] && s[j + 1] == s[1..][j];
      }
    }
  }

  lemma {:induction false} GroupsAreOpen(s: string)
    requires Matches(Star(GROUP), s)
    ensures OpenGroups(s)
    decreases |s|
  {
    if s != "" {
      var i :| 0 < i <= |s| && Matches(GROUP, s[..i]) && Matches(Star(GROUP), s[i..]);
      GroupIsOpen(s[..i]);
      GroupsAreOpen(s[i..]);
      OpenAppend(s[..i], s[i..]);
      assert s == s[..i] + s[i..];
    }
  }

  lemma {:induction false} OpenAreGroups(s: string)
    requires OpenGroups(s)
    ensures Matches(Star(GROUP), s)
    decreases |s|
  {
    if s != "" {
      OpenTail(s);
      var n := FirstRun(s[1..]);
      OneGroup(s, n);
      assert s[n + 1..] == s[1..][n..];
      OpenAreGroups(s[n + 1..]);
    }
  }

  lemma OpenTail(s: string)
    requires Open(s) && s[0] != '*'
    ensures Open(s[1..])
  {
    assert forall k | 0 <= k < |s[1..]| :: s[1..][k] == s[k + 1];
  }

  lemma OneGroup(s: string, n: nat)
    requires s != "" && s[0] != '*' && s[0] != '/' && n <= |s[1..]| && Matches(RUN, s[1..][..n])
    ensures Matches(GROUP, s[..n + 1])
  {
    var g := s[..n + 1];
    assert g[..1] == [s[0]] && g[1..] == s[1..][..n];
    assert Matches(NotIn({'*', '/'}), g[..1]) && Matches(RUN, g[1..]);
  }

  lemma GroupsMatch(s: string)
    ensures Matches(Star(GROUP), s) <==> OpenGroups(s)
  {
    if Matches(Star(GROUP), s) {
      GroupsAreOpen(s);
    }
    if OpenGroups(s) {
      OpenAreGroups(s);
    }
  }

  lemma InnerMatch(s: string)
    ensures Matches(INNER, s) <==> Open(s)
  {
    if Matches(INNER, s) {
      var i :| 0 <= i <= |s| && Matches(RUN, s[..i]) && Matches(Star(GROUP), s[i..]);
      RunMatch(s[..i]);
      var k: nat :| RunAt(s[..i], k);
      RunIsOpen(s[..i], k);
      GroupsMatch(s[i..]);
      OpenAppend(s[..i], s[i..]);
      assert s == s[..i] + s[i..];
    }
    if Open(s) {
      var n := FirstRun(s);
      GroupsMatch(s[n..]);
      assert Matches(RUN, s[..n]) && Matches(Star(GROUP), s[n..]);
    }
  }

  // ---------- the whole pattern ----------

  lemma LitFirst(c: char, b: Regex, s: string)
    ensures Matches(Cat(Lit(c), b), s) <==> s != "" && s[0] == c && Matches(b, s[1..])
  {
    if Matches(Cat(Lit(c), b), s) {
      var i :| 0 <= i <= |s| && Matches(Lit(c), s[..i]) && Matches(b, s[i..]);
      assert i == 1;
    }
    if s != "" && s[0] == c && Matches(b, s[1..]) {
      assert Matches(Lit(c), s[..1]);
    }
  }

  lemma LitLast(a: Regex, c: char, s: string)
    ensures Matches(Cat(a, Lit(c)), s) <==> s != "" && s[|s| - 1] == c && Matches(a, s[..|s| - 1])
  {
    if Matches(Cat(a, Lit(c)), s) {
      var i :| 0 <= i <= |s| && Matches(a, s[..i]) && Matches(Lit(c), s[i..]);
      assert s[i..] == [c];
      assert i == |s| - 1 && s[i] == s[i..][0];
    }
    if s != "" && s[|s| - 1] == c && Matches(a, s[..|s| - 1]) {
      assert s[|s| - 1..] == [c];
    }
  }

  lemma CommentParts(s: string)
    ensures Matches(COMMENT, s) <==>
            |s| >= 3 && s[0] == '/' && s[1] == '*' && s[|s| - 1] == '/' && Matches(INNER, s[2..|s| - 1])
  {
    var last := Cat(INNER, Lit('/'));
    LitFirst('/', Cat(Lit('*'), last), s);
    if |s| >= 2 {
      LitFirst('*', last, s[1..]);
      assert s[1..][1..] == s[2..];
      LitLast(INNER, '/', s[2..]);
      assert |s| >= 3 ==> s[2..][..|s| - 3] == s[2..|s| - 1];
    } else if |s| == 1 {
      LitFirst('*', last, s[1..]);
    }
  }

  /**
   The pattern accepts exactly the texts that begin with the opening mark and whose first closing
   mark after it ends the text.
   */
  lemma CommentExact(s: string)
    ensures Matches(COMMENT, s) <==>
            |s| >= 4 && s[0] == '/' && s[1] == '*' && CloseAt(s[2..]) == Some(|s| - 4)
  {
    CommentParts(s);
    if |s| >= 3 {
      var x, y := s[2..|s| - 1], s[2..];
      InnerMatch(x);
      assert forall i | 0 <= i < |x| :: x[i] == y[i];
      if Open(x) && s[|s| - 1] == '/' {
        assert y[|x| - 1] == '*' && y[|x|] == '/';
        assert forall i | 0 <= i < |x| - 1 :: !(y[i] == '*' && y[i + 1] == '/');
      }
      if |s| >= 4 && CloseAt(y) == Some(|s| - 4) {
        assert y[|s| - 4] == '*' && y[|s| - 3] == '/';
        assert Open(x);
      }
    }
  }

  /** So of all prefixes of a text at most one matches: the longest match is the shortest comment. */
  lemma LongestIsShortest(s: string, n: nat)
    requires |s| >= 2 && s[0] == '/' && s[1] == '*' && n <= |s|
    ensures Matches(COMMENT, s[..n]) <==> CloseAt(s[2..]).Some? && n == CloseAt(s[2..]).value + 4
  {
    CommentExact(s[..n]);
    if n >= 4 {
      var y := s[2..];
      assert s[..n][2..] == y[..n - 2];
      ClosePrefix(y, n - 2);
    }
  }

  lemma ClosePrefix(y: string, m: nat)
    requires 2 <= m <= |y|
    ensures CloseAt(y[..m]) == Some(m - 2) <==> CloseAt(y) == Some(m - 2)
  {
    var z := y[..m];
    assert forall i | 0 <= i < m :: z[i] == y[i];
    CloseUnique(z, m - 2);
    CloseUnique(y, m - 2);
  }

  lemma CloseUnique(s: string, k: nat)
    requires k + 2 <= |s|
    ensures CloseAt(s) == Some(k) <==>
            s[k] == '*' && s[k + 1] == '/' && forall i | 0 <= i < k :: !(s[i] == '*' && s[i + 1] == '/')
  {
    match CloseAt(s)
    case None => assert !(s[k] == '*' && s[k + 1] == '/');
    case Some(n) => assert n < k ==> s[n] == '*' && s[n + 1] == '/';
  }
}
