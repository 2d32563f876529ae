/** One lexeme at a time: what the scanner returns for each kind of lexeme in front of any text. */
module ScanSteps {
  import opened Lexical
  import opened Scanner
  import Blobs

  predicate StopsWord(rest: string) {
    rest == "" || !IsWordChar(rest[0])
  }

  lemma ScanToken(m: Mode, lexeme: string, rest: string, t: Token)
    requires m != EdgeAttr && lexeme != "" && Next(m, lexeme + rest) == Match(Some(t), |lexeme|, m)
    ensures Scan(m, lexeme + rest) == [t] + Scan(m, rest)
  {
    assert (lexeme + rest)[|lexeme|..] == rest;
  }

  lemma ScanWord(m: Mode, word: string, rest: string)
    requires m != EdgeAttr && IsIdent(word) && StopsWord(rest)
    ensures Scan(m, word + rest) == [Keyword(m, word)] + Scan(m, rest)
  {
    var s := word + rest;
    SpanOfPrefix(IsWordChar, word, rest);
    assert s[0] == word[0] && s[..|word|] == word;
    ScanToken(m, word, rest, Keyword(m, word));
  }

  lemma ScanNumeral(m: Mode, digits: string, rest: string)
    requires m != EdgeAttr && IsNumeral(digits) && (rest == "" || !IsDigit(rest[0]))
    ensures Scan(m, digits + rest) == [NUMBER(NumeralValue(digits))] + Scan(m, rest)
  {
    var s := digits + rest;
    SpanOfPrefix(IsDigit, digits, rest);
    assert s[0] == digits[0] && s[..|digits|] == digits;
    ScanToken(m, digits, rest, NUMBER(NumeralValue(digits)));
  }

  lemma ScanQuoted(text: string, rest: string)
    requires IsQuoted(text)
    ensures Scan(Initial, text + rest) == [STRING(CString(text))] + Scan(Initial, rest)
  {
    var s := text + rest;
    assert s[0] == '"' && s[..|text|] == text;
    QuoteAt(text, rest);
    ScanToken(Initial, text, rest, STRING(CString(text)));
  }

  lemma QuoteAt(text: string, rest: string)
    requires IsQuoted(text)
    ensures IndexOf((text + rest)[1..], '"') == Some(|text| - 2)
  {
    var t := (text + rest)[1..];
    assert forall i | 0 <= i < |text| - 1 :: t[i] == text[i + 1];
    IndexOfUnique(t, '"', |text| - 2);
  }

  /** The token of a one-character lexeme. */
  function Punctuation(m: Mode, c: char): Option<Token> {
    match c
    case '=' => Some(EQUALS)
    case ',' => Some(COMMA)
    case ']' => Some(CBRACKET)
    case '[' => if m == Initial then Some(OBRACKET) else None
    case '-' => if m == Initial then Some(DASH) else None
    case '>' => if m == Initial then Some(ARROW) else None
    case _ => None
  }

  lemma ScanPunctuation(m: Mode, c: char, rest: string)
    requires m != EdgeAttr && Punctuation(m, c).Some?
    ensures Scan(m, [c] + rest)
            == [Punctuation(m, c).value] + Scan(if c == '>' then EdgeDef else m, rest)
  {
    assert ([c] + rest)[1..] == rest;
  }

  lemma ScanBlank(m: Mode, c: char, rest: string)
    requires m != EdgeAttr && IsBlank(c)
    ensures Scan(m, [c] + rest) == Scan(m, rest)
  {
    assert ([c] + rest)[1..] == rest;
  }

  lemma {:induction false} CloseAtEnd(inner: string, rest: string)
    requires CloseAt(inner).None?
    ensures CloseAt(inner + "*/" + rest) == Some(|inner|)
  {
    var s := inner + "*/" + rest;
    if inner == "" {
      assert s == "*/" + rest;
    } else {
      assert s[1..] == inner[1..] + "*/" + rest;
      CloseAtEnd(inner[1..], rest);
      assert s[0] == inner[0] && s[1] == (inner + "*/")[1];
    }
  }

  lemma ScanComment(m: Mode, inner: string, rest: string)
    requires m != EdgeAttr && CloseAt(inner).None?
    ensures Scan(m, "/*" + inner + "*/" + rest) == Scan(m, rest)
  {
    var s := "/*" + inner + "*/" + rest;
    assert s[2..] == inner + "*/" + rest;
    CloseAtEnd(inner, rest);
    assert s[|inner| + 4..] == rest;
  }

  /** A bracket after a call header, balanced or not. */
  lemma OpenNested(s: string)
    requires s != "" && s[0] == '['
    ensures Scan(EdgeDef, s)
            == match BlobLength(s[1..], 1)
               case None => []
               case Some(n) => [BLOB(CString(s[1..n + 1]))] + Scan(Initial, s[n + 1..])
  {
    assert s[|s|..] == "";
  }

  lemma ScanBlob(body: string, rest: string)
    requires Blobs.Intact(body)
    ensures Scan(EdgeDef, "[" + body + "]" + rest) == [BLOB(body + "]")] + Scan(Initial, rest)
  {
    var s := "[" + body + "]" + rest;
    assert s[1..] == body + "]" + rest;
    Blobs.IntactBlob(body, rest);
    NulFreeAppend(body, "]");
    OpenNested(s);
    assert s[1..|body| + 2] == body + "]" && s[|body| + 2..] == rest;
  }

  /** The prefix that `HandleEdge` puts in front of a blob is white space and one bracket. */
  lemma ScanPrefix(blob: string)
    ensures Scan(Initial, PREFIX + blob) == [OBRACKET] + Scan(Initial, blob)
  {
    var s0 := ['['] + blob;
    var s1 := [' '] + s0;
    var s2 := [' '] + s1;
    var s3 := [' '] + s2;
    var s4 := [' '] + s3;
    assert PREFIX + blob == ['\n'] + s4;
    ScanBlank(Initial, '\n', s4);
    ScanBlank(Initial, ' ', s3);
    ScanBlank(Initial, ' ', s2);
    ScanBlank(Initial, ' ', s1);
    ScanBlank(Initial, ' ', s0);
    ScanPunctuation(Initial, '[', blob);
  }
}
