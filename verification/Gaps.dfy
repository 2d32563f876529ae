/** White space and comments between lexemes, and the lexemes in front of them. */
module Gaps {
  import opened Lexical
  import opened Scanner
  import opened ScanSteps

  datatype Filler = Blank(c: char) | Comment(inner: string)
  type Gap = seq<Filler>

  predicate GoodFiller(f: Filler) {
    match f
    case Blank(c) => IsBlank(c)
    case Comment(inner) => CloseAt(inner).None?
  }

  predicate GoodGap(g: Gap) {
    forall i | 0 <= i < |g| :: GoodFiller(g[i])
  }

  function FillerText(f: Filler): string {
    match f
    case Blank(c) => [c]
    case Comment(inner) => "/*" + inner + "*/"
  }

  /** The text of a gap, followed by `rest`. */
  function GapText(g: Gap, rest: string): string {
    if g == [] then rest else FillerText(g[0]) + GapText(g[1..], rest)
  }

  lemma {:induction false} ScanGap(m: Mode, g: Gap, rest: string)
    requires m != EdgeAttr && GoodGap(g)
    ensures Scan(m, GapText(g, rest)) == Scan(m, rest)
  {
    if g != [] {
      assert GoodFiller(g[0]);
      match g[0] {
        case Blank(c) => ScanBlank(m, c, GapText(g[1..], rest));
        case Comment(inner) => ScanComment(m, inner, GapText(g[1..], rest));
      }
      ScanGap(m, g[1..], rest);
    }
  }

  /** A gap in front of text that does not extend a word, or a nonempty gap, ends a word. */
  lemma GapStopsWord(g: Gap, rest: string)
    requires GoodGap(g) && (g != [] || StopsWord(rest))
    ensures StopsWord(GapText(g, rest))
  {
    if g != [] {
      assert GoodFiller(g[0]);
    }
  }

  lemma ScanWordGap(m: Mode, word: string, g: Gap, rest: string)
    requires m != EdgeAttr && IsIdent(word) && GoodGap(g) && (g != [] || StopsWord(rest))
    ensures Scan(m, word + GapText(g, rest)) == [Keyword(m, word)] + Scan(m, rest)
  {
    GapStopsWord(g, rest);
    ScanWord(m, word, GapText(g, rest));
    ScanGap(m, g, rest);
  }

  lemma ScanPunctuationGap(m: Mode, c: char, g: Gap, rest: string)
    requires m != EdgeAttr && Punctuation(m, c).Some? && GoodGap(g)
    ensures Scan(m, [c] + GapText(g, rest))
            == [Punctuation(m, c).value] + Scan(if c == '>' then EdgeDef else m, rest)
  {
    ScanPunctuation(m, c, GapText(g, rest));
    ScanGap(if c == '>' then EdgeDef else m, g, rest);
  }

  lemma ScanNumeralGap(m: Mode, digits: string, g: Gap, rest: string)
    requires m != EdgeAttr && IsNumeral(digits) && GoodGap(g)
    requires g != [] || rest == "" || !IsDigit(rest[0])
    ensures Scan(m, digits + GapText(g, rest)) == [NUMBER(NumeralValue(digits))] + Scan(m, rest)
  {
    if g != [] {
      assert GoodFiller(g[0]);
    }
    ScanNumeral(m, digits, GapText(g, rest));
    ScanGap(m, g, rest);
  }

  lemma ScanQuotedGap(text: string, g: Gap, rest: string)
    requires IsQuoted(text) && GoodGap(g)
    ensures Scan(Initial, text + GapText(g, rest)) == [STRING(CString(text))] + Scan(Initial, rest)
  {
    ScanQuoted(text, GapText(g, rest));
    ScanGap(Initial, g, rest);
  }
}
