/** One attribute as text, `key = value,`, with any gap after each lexeme. */
module AttributeText {
  import opened Lexical
  import opened Scanner
  import opened ScanSteps
  import opened Gaps
  import opened Grammar

  predicate GoodName(s: string) {
    IsIdent(s) && s != "source"
  }

  /** A value as it is written down; a numeral may have leading zeros. */
  predicate IsValueText(s: string) {
    IsQuoted(s) || GoodName(s) || IsNumeral(s)
  }

  predicate StartsQuoted(s: string) {
    s != "" && s[0] == '"'
  }

  /** The value that a text denotes; a string that was cut off has lost its closing quote. */
  function ReadValue(s: string): Value
    requires StartsQuoted(s) || GoodName(s) || IsNumeral(s)
  {
    if s[0] == '"' then Quoted(s)
    else if IsLetter(s[0]) then Name(s)
    else Number(NumeralValue(s))
  }

  /** What the scanner hands on of a value. */
  function ScannedValue(s: string): Value
    requires IsValueText(s)
  {
    ScannedText(s);
    ReadValue(CString(s))
  }

  lemma ScannedText(s: string)
    requires IsValueText(s)
    ensures if StartsQuoted(s) then StartsQuoted(CString(s)) else CString(s) == s
  {
    if StartsQuoted(s) {
      assert s[0] != '\0';
    } else {
      assert forall i | 0 <= i < |s| :: IsWordChar(s[i]);
    }
  }

  lemma ScanValueGap(s: string, g: Gap, rest: string)
    requires IsValueText(s) && GoodGap(g) && (g != [] || StopsWord(rest))
    ensures Scan(Initial, s + GapText(g, rest)) == [ValueToken(ScannedValue(s))] + Scan(Initial, rest)
  {
    ScannedText(s);
    if s[0] == '"' {
      ScanQuotedGap(s, g, rest);
    } else if IsLetter(s[0]) {
      ScanWordGap(Initial, s, g, rest);
    } else {
      ScanNumeralGap(Initial, s, g, rest);
    }
  }

  function PrintAttr(key: string, g0: Gap, g1: Gap, val: string, g2: Gap, g3: Gap, rest: string): string {
    key + GapText(g0, ['='] + GapText(g1, val + GapText(g2, [','] + GapText(g3, rest))))
  }

  lemma OneAttrTokens(attr: Attr, rest: seq<Token>)
    ensures AttrTokens([attr], rest)
            == [IDENT(attr.key)] + ([EQUALS] + ([ValueToken(attr.val)] + ([COMMA] + rest)))
  {
    assert [attr][1..] == [];
  }

  lemma ScanAttr(key: string, g0: Gap, g1: Gap, val: string, g2: Gap, g3: Gap, rest: string)
    requires GoodName(key) && IsValueText(val)
    requires GoodGap(g0) && GoodGap(g1) && GoodGap(g2) && GoodGap(g3)
    ensures Scan(Initial, PrintAttr(key, g0, g1, val, g2, g3, rest))
            == AttrTokens([Attr(key, ScannedValue(val))], Scan(Initial, rest))
  {
    var r3 := [','] + GapText(g3, rest);
    var r1 := ['='] + GapText(g1, val + GapText(g2, r3));
    ScanWordGap(Initial, key, g0, r1);
    ScanPunctuationGap(Initial, '=', g1, val + GapText(g2, r3));
    ScanValueGap(val, g2, r3);
    ScanPunctuationGap(Initial, ',', g3, rest);
    OneAttrTokens(Attr(key, ScannedValue(val)), Scan(Initial, rest));
  }
}
