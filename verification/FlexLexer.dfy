/**
 The scanner object: src/fidi_flex_lexer.h with the rules of src/fidi_scanner.ll.
 A nested request is cut out piece by piece (`yymore`) while `bracketCount` follows the nesting.
 */
module FlexLexer {
  import opened Lexical
  import opened Scanner
  import opened ScanSteps
  import opened Sequences

  class FidiFlexLexer {
    const input: string
    var pos: nat
    var start: Mode
    var bracketCount: int

    ghost predicate Valid()
      reads this
    {
      && pos <= |input|
      && bracketCount >= 0
      && (start == EdgeAttr <==> bracketCount > 0)
      && (start == EdgeAttr ==> pos == |input|)
    }

    /** The tokens that are still to come. */
    ghost function Remaining(): seq<Token>
      requires Valid()
      reads this
    {
      if start == EdgeAttr then [] else Scan(start, input[pos..])
    }

    constructor (text: string)
      ensures Valid() && input == text && Remaining() == Scan(Initial, text)
    {
      input := text;
      pos := 0;
      start := Initial;
      bracketCount := 0;
      new;
      assert input[0..] == text;
    }

    /** Returns the next token; None is the end of the input. */
    method Yylex() returns (token: Option<Token>)
      requires Valid()
      modifies this
      ensures Valid()
      ensures old(Remaining()) == if token.Some? then [token.value] + Remaining() else []
      ensures token.None? ==> Remaining() == []
    {
      ghost var tokens := Remaining();
      while pos < |input| && start != EdgeAttr
        invariant Valid() && Remaining() == tokens
        decreases |input| - pos
      {
        if IsBlank(input[pos]) {
          SkipBlanks();
        } else if start == EdgeDef && input[pos] == '[' {
          token := NestedRequest();
          return;
        } else {
          token := SimpleMatch();
          if token.Some? {
            return;
          }
        }
      }
      token := None;
    }

    /** Any rule that is done with one match; None if it returns no token. */
    method SimpleMatch() returns (token: Option<Token>)
      requires Valid() && start != EdgeAttr && pos < |input|
      requires !(start == EdgeDef && input[pos] == '[')
      modifies this`start, this`pos
      ensures Valid() && old(pos) < pos && start != EdgeAttr
      ensures old(Remaining()) == if token.Some? then [token.value] + Remaining() else Remaining()
    {
      var m := Next(start, input[pos..]);
      hide Next;
      assert input[pos..][m.length..] == input[pos + m.length..];
      start, pos := m.mode, pos + m.length;
      token := m.token;
    }

    /** The rule `<EDGEDEF>"["` and everything up to the bracket that closes it. */
    method NestedRequest() returns (token: Option<Token>)
      requires Valid() && start == EdgeDef && pos < |input| && input[pos] == '['
      modifies this
      ensures Valid()
      ensures old(Remaining()) == if token.Some? then [token.value] + Remaining() else []
      ensures token.None? ==> Remaining() == []
    {
      ScanNested(input, pos);
      start, bracketCount, pos := EdgeAttr, bracketCount + 1, pos + 1;
      token := EdgeAttribute();
    }

    /** The rule `{BLANK}*`: one match for a whole run of blanks. */
    method SkipBlanks()
      requires Valid() && start != EdgeAttr && pos < |input| && IsBlank(input[pos])
      modifies this`pos
      ensures Valid() && Remaining() == old(Remaining())
      ensures old(pos) < pos
    {
      ghost var tokens := Remaining();
      while pos < |input| && IsBlank(input[pos])
        invariant old(pos) <= pos && Valid() && Remaining() == tokens
        invariant old(pos) == pos ==> IsBlank(input[pos])
      {
        assert input[pos..][1..] == input[pos + 1..];
        pos := pos + 1;
      }
    }

    /** The three EDGEATTR rules, run until the bracket that opened the nested request closes. */
    method EdgeAttribute() returns (token: Option<Token>)
      requires start == EdgeAttr && bracketCount == 1 && pos <= |input|
      modifies this
      ensures Valid()
      ensures match BlobEnd(input, old(pos), 1)
              case Some(end) => pos == end && start == Initial && token == Some(BLOB(CString(input[old(pos)..pos])))
              case None => token == None && pos == |input| && start == EdgeAttr
    {
      hide BlobEnd, CString;
      var yytext := "";
      while pos < |input|
        invariant old(pos) <= pos <= |input| && yytext == input[old(pos)..pos]
        invariant start == EdgeAttr && bracketCount > 0
        invariant BlobEnd(input, pos, bracketCount) == BlobEnd(input, old(pos), 1)
      {
        BlobStep(input, pos, bracketCount);
        SliceSnoc(input, old(pos), pos);
        if input[pos] == '[' {
          bracketCount := bracketCount + 1;
          yytext, pos := yytext + [input[pos]], pos + 1;
        } else if input[pos] == ']' {
          bracketCount := bracketCount - 1;
          yytext, pos := yytext + [input[pos]], pos + 1;
          if bracketCount == 0 {
            start := Initial;
            return Some(BLOB(CString(yytext)));
          }
        } else {
          var from := pos;
          PlainText();
          SliceJoin(input, old(pos), from, pos);
          yytext := yytext + input[from..pos];
        }
      }
      BlobNeverEnds(input, bracketCount);
      token := None;
    }

    /** The rule `([^\[\]]|{BLANK})+`: one match for a whole run without brackets. */
    method PlainText()
      requires pos < |input| && input[pos] != '[' && input[pos] != ']' && bracketCount > 0
      modifies this`pos
      ensures old(pos) < pos <= |input|
      ensures BlobEnd(input, pos, bracketCount) == BlobEnd(input, old(pos), bracketCount)
    {
      while pos < |input| && input[pos] != '[' && input[pos] != ']'
        invariant old(pos) <= pos <= |input|
        invariant old(pos) == pos ==> input[pos] != '[' && input[pos] != ']'
        invariant BlobEnd(input, pos, bracketCount) == BlobEnd(input, old(pos), bracketCount)
      {
        BlobStep(input, pos, bracketCount);
        pos := pos + 1;
      }
    }
  }

  /** Where the blob that starts at `i` inside `depth` open brackets ends. */
  function BlobEnd(s: string, i: nat, depth: nat): Option<nat>
    requires i <= |s| && depth > 0
  {
    match BlobLength(s[i..], depth)
    case None => None
    case Some(n) => Some(i + n)
  }

  lemma ScanClosed(s: string, n: nat)
    requires s != "" && s[0] == '[' && BlobLength(s[1..], 1) == Some(n)
    ensures Scan(EdgeDef, s) == [BLOB(CString(s[1..n + 1]))] + Scan(Initial, s[n + 1..])
  {
    OpenNested(s);
  }

  /** What the scanner makes of a bracket that opens a nested request. */
  lemma ScanNested(s: string, i: nat)
    requires i < |s| && s[i] == '['
    ensures Scan(EdgeDef, s[i..])
            == match BlobEnd(s, i + 1, 1)
               case None => []
               case Some(end) => [BLOB(CString(s[i + 1..end]))] + Scan(Initial, s[end..])
  {
    hide Scan, Next, BlobLength, CString;
    var text := s[i..];
    SliceOfRest(s, i, 1, 1);
    match BlobLength(s[i + 1..], 1)
    case None => OpenNested(text);
    case Some(n) =>
      ScanClosed(text, n);
      SliceOfRest(s, i, 1, n + 1);
  }

  lemma BlobStep(s: string, i: nat, depth: nat)
    requires i < |s| && depth > 0
    ensures BlobEnd(s, i, depth)
            == if s[i] == ']' && depth == 1 then Some(i + 1) else BlobEnd(s, i + 1, NextDepth(s[i], depth))
  {
    assert s[i..][1..] == s[i + 1..];
  }

  lemma BlobNeverEnds(s: string, depth: nat)
    requires depth > 0
    ensures BlobEnd(s, |s|, depth) == None
  {
  }

  lemma SliceJoin(s: string, i: nat, j: nat, k: nat)
    requires i <= j <= k <= |s|
    ensures s[i..j] + s[j..k] == s[i..k]
  {
  }

  lemma SliceSnoc(s: string, i: nat, j: nat)
    requires i <= j < |s|
    ensures s[i..j] + [s[j]] == s[i..j + 1]
  {
  }
}
