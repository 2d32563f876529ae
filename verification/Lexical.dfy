/** Character classes and numerals of the request language (src/fidi_scanner.ll:80-84). */
module Lexical {

  const INT_MAX: int := 2147483647

  /** What `HandleEdge` puts in front of a blob (src/fidi_driver.cc:98). */
  const PREFIX := "\n    ["

  datatype Option<+T> = None | Some(value: T)

  predicate IsBlank(c: char) {
    c == ' ' || c == '\t' || c == '\r' || c == '\n'
  }

  predicate IsDigit(c: char) {
    '0' <= c <= '9'
  }

  predicate IsLetter(c: char) {
    'a' <= c <= 'z' || 'A' <= c <= 'Z'
  }

  predicate IsWordChar(c: char) {
    IsLetter(c) || IsDigit(c) || c == '_'
  }

  predicate IsIdent(s: string) {
    && |s| > 0
    && IsLetter(s[0])
    && forall i | 0 <= i < |s| :: IsWordChar(s[i])
  }

  predicate IsNumeral(s: string) {
    && |s| > 0
    && forall i | 0 <= i < |s| :: IsDigit(s[i])
  }

  /** A STRING lexeme: a double quote at either end and none in between. */
  predicate IsQuoted(s: string) {
    && |s| >= 2
    && s[0] == '"' && s[|s| - 1] == '"'
    && forall i | 0 < i < |s| - 1 :: s[i] != '"'
  }

  predicate NulFree(s: string) {
    '\0' !in s
  }

  /** A text that was handed on as a C string: it ends in front of the first NUL. */
  function CString(s: string): (r: string)
    ensures NulFree(r) && |r| <= |s| && r == s[..|r|]
    ensures r == s <==> NulFree(s)
    ensures r != s ==> s[|r|] == '\0'
  {
    match IndexOf(s, '\0')
    case None => s
    case Some(i) => s[..i]
  }

  lemma NulFreeAppend(a: string, b: string)
    ensures NulFree(a + b) <==> NulFree(a) && NulFree(b)
  {
    assert forall c :: c in a + b <==> c in a || c in b;
  }

  /** Length of the longest prefix of `s` whose characters all satisfy `p`. */
  function Span(p: char -> bool, s: string): (n: nat)
    ensures n <= |s|
    ensures forall i | 0 <= i < n :: p(s[i])
    ensures n < |s| ==> !p(s[n])
  {
    if s == "" || !p(s[0]) then 0 else 1 + Span(p, s[1..])
  }

  lemma SpanOfPrefix(p: char -> bool, a: string, rest: string)
    requires forall i | 0 <= i < |a| :: p(a[i])
    requires rest == "" || !p(rest[0])
    ensures Span(p, a + rest) == |a|
  {
    var s := a + rest;
    assert forall i | 0 <= i < |a| :: s[i] == a[i];
    if rest != "" {
      assert s[|a|] == rest[0];
    }
  }

  /** Index of the first `c` in `s`. */
  function IndexOf(s: string, c: char): (r: Option<nat>)
    ensures r.Some? ==> r.value < |s| && s[r.value] == c && forall i | 0 <= i < r.value :: s[i] != c
    ensures r.None? ==> c !in s
  {
    if s == "" then None
    else if s[0] == c then Some(0)
    else match IndexOf(s[1..], c)
         case None => None
         case Some(i) => Some(i + 1)
  }

  lemma IndexOfUnique(s: string, c: char, k: nat)
    requires k < |s| && s[k] == c && forall i | 0 <= i < k :: s[i] != c
    ensures IndexOf(s, c) == Some(k)
  {
    assert c in s;
  }

  // ---------- numerals: std::to_string and std::atoi ----------

  function DigitChar(d: nat): (c: char)
    requires d < 10
    ensures IsDigit(c)
  {
    '0' + d as char
  }

  function DigitValue(c: char): (d: nat)
    requires IsDigit(c)
    ensures d < 10 && DigitChar(d) == c
  {
    (c - '0') as nat
  }

  function Decimal(n: nat): (s: string)
    ensures IsNumeral(s)
  {
    if n < 10 then [DigitChar(n)] else Decimal(n / 10) + [DigitChar(n % 10)]
  }

  function NumeralValue(s: string): nat
    requires forall i | 0 <= i < |s| :: IsDigit(s[i])
  {
    if s == "" then 0 else 10 * NumeralValue(s[..|s| - 1]) + DigitValue(s[|s| - 1])
  }

  lemma {:induction false} DecimalValue(n: nat)
    ensures NumeralValue(Decimal(n)) == n
  {
    if n < 10 {
      assert Decimal(n)[..0] == "";
    } else {
      DecimalValue(n / 10);
      assert Decimal(n)[..|Decimal(n)| - 1] == Decimal(n / 10);
    }
  }

  /** Printing is injective, so equal numerals come from equal numbers. */
  lemma DecimalInjective(a: nat, b: nat)
    requires Decimal(a) == Decimal(b)
    ensures a == b
  {
    DecimalValue(a);
    DecimalValue(b);
  }

  // ---------- what a numeral stands for ----------

  function Power10(k: nat): nat {
    if k == 0 then 1 else 10 * Power10(k - 1)
  }

  /** The first digit counts for the highest power of ten, from '0' for zero to '9' for nine. */
  lemma {:induction false} FirstDigitCounts(s: string)
    requires IsNumeral(s)
    ensures NumeralValue(s) == (s[0] as int - '0' as int) * Power10(|s| - 1) + NumeralValue(s[1..])
  {
    var n := |s| - 1;
    if n == 0 {
      assert s[..0] == "" && s[1..] == "";
    } else {
      var front := s[..n];
      FirstDigitCounts(front);
      assert s[1..][..n - 1] == front[1..] && s[1..][n - 1] == s[n];
      var d := s[0] as int - '0' as int;
      assert 10 * (d * Power10(n - 1)) == d * Power10(n);
    }
  }
}
