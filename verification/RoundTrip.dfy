/** Printing a request in any layout, scanning and parsing it gives the request back. */
module RoundTrip {
  import opened Lexical
  import opened Scanner
  import opened ScanSteps
  import opened Gaps
  import opened AttributeText
  import opened Grammar
  import opened Blobs
  import opened Layout
  import opened Sequences

  // ---------- text in front of other text ----------

  lemma {:induction false} GapTextAppend(g: Gap, x: string, y: string)
    ensures GapText(g, x + y) == GapText(g, x) + y
  {
    if g != [] {
      GapTextAppend(g[1..], x, y);
      assert FillerText(g[0]) + (GapText(g[1..], x) + y) == FillerText(g[0]) + GapText(g[1..], x) + y;
    }
  }

  lemma PieceAppend(a: string, g: Gap, x: string, y: string)
    ensures a + GapText(g, x + y) == a + GapText(g, x) + y
  {
    GapTextAppend(g, x, y);
  }

  lemma PrintAttrAppend(a: AttrL, x: string, y: string)
    ensures PrintAttrL(a, x + y) == PrintAttrL(a, x) + y
  {
    PieceAppend([','], a.g3, x, y);
    PieceAppend(a.val, a.g2, [','] + GapText(a.g3, x), y);
    PieceAppend(['='], a.g1, a.val + GapText(a.g2, [','] + GapText(a.g3, x)), y);
    PieceAppend(a.key, a.g0, ['='] + GapText(a.g1, a.val + GapText(a.g2, [','] + GapText(a.g3, x))), y);
  }

  lemma PrintOptAppend(o: OptL, x: string, y: string)
    ensures PrintOpt(o, x + y) == PrintOpt(o, x) + y
  {
    PieceAppend(o.digits, o.g2, x, y);
    PieceAppend(['='], o.g1, o.digits + GapText(o.g2, x), y);
    PieceAppend(if o.isRepeat then "repeat" else "sequence", o.g0,
                ['='] + GapText(o.g1, o.digits + GapText(o.g2, x)), y);
  }

  lemma {:induction false} PrintOptsAppend(opts: seq<OptL>, x: string, y: string)
    ensures PrintOpts(opts, x + y) == PrintOpts(opts, x) + y
  {
    if opts != [] {
      PrintOptsAppend(opts[1..], x, y);
      PrintOptAppend(opts[0], PrintOpts(opts[1..], x), y);
    }
  }

  lemma PrintHeaderAppend(c: Call, x: string, y: string)
    ensures PrintHeader(c, x + y) == PrintHeader(c, x) + y
  {
    PrintOptsAppend(c.opts, x, y);
    var r := PrintOpts(c.opts, x);
    PieceAppend(c.dest, c.g2, r, y);
    PieceAppend(['>'], c.g1, c.dest + GapText(c.g2, r), y);
    PieceAppend(['-'], c.g0, ['>'] + GapText(c.g1, c.dest + GapText(c.g2, r)), y);
  }

  lemma {:induction false} PrintBodyAppend(b: Body, x: string, y: string)
    ensures PrintBody(b, x + y) == PrintBody(b, x) + y
  {
    match b
    case End =>
    case WithAttr(attr, more) =>
      PrintBodyAppend(more, x, y);
      PrintAttrAppend(attr, PrintBody(more, x), y);
    case WithCall(c, more) =>
      PrintBodyAppend(more, x, y);
      var r := PrintBody(more, x);
      PieceAppend("[" + Inside(c) + "]", c.close, r, y);
      PrintHeaderAppend(c, "[" + Inside(c) + "]" + GapText(c.close, r), y);
  }

  // ---------- quiet requests keep their brackets balanced ----------

  lemma {:induction false} HeightShift(a: string, h: nat, k: nat)
    requires Height(a, h).Some?
    ensures Height(a, h + k) == Some(Height(a, h).value + k)
  {
    if a != "" {
      HeightShift(a[1..], NextDepth(a[0], h), k);
    }
  }

  lemma IntactPrefix(a: string, rest: string, h: nat)
    requires Intact(a)
    ensures Height(a + rest, h) == Height(rest, h)
  {
    HeightShift(a, 0, h);
    HeightAppend(a, rest, h);
  }

  lemma PlainPrefix(a: string, rest: string, h: nat)
    requires NulFree(a) && forall i | 0 <= i < |a| :: a[i] != '[' && a[i] != ']'
    ensures Height(a + rest, h) == Height(rest, h)
  {
    PlainIsIntact(a);
    IntactPrefix(a, rest, h);
  }

  lemma {:induction false} GapHeight(g: Gap, rest: string, h: nat)
    requires GoodGap(g) && QuietGap(g)
    ensures Height(GapText(g, rest), h) == Height(rest, h)
  {
    if g != [] {
      GapHeight(g[1..], rest, h);
      FillerHeight(g[0], GapText(g[1..], rest), h);
    }
  }

  lemma FillerHeight(f: Filler, rest: string, h: nat)
    requires GoodFiller(f) && (f.Comment? ==> Intact(f.inner))
    ensures Height(FillerText(f) + rest, h) == Height(rest, h)
  {
    hide Height, CloseAt;
    match f
    case Blank(c) => PlainPrefix([c], rest, h);
    case Comment(inner) =>
      PlainPrefix("/*", inner + ("*/" + rest), h);
      IntactPrefix(inner, "*/" + rest, h);
      PlainPrefix("*/", rest, h);
      assert "/*" + inner + "*/" + rest == "/*" + (inner + ("*/" + rest));
  }

  lemma PieceHeight(a: string, g: Gap, rest: string, h: nat)
    requires Intact(a) && GoodGap(g) && QuietGap(g)
    ensures Height(a + GapText(g, rest), h) == Height(rest, h)
  {
    IntactPrefix(a, GapText(g, rest), h);
    GapHeight(g, rest, h);
  }

  lemma AttrHeight(a: AttrL, rest: string, h: nat)
    requires GoodAttrL(a) && QuietAttr(a)
    ensures Height(PrintAttrL(a, rest), h) == Height(rest, h)
  {
    var r3 := [','] + GapText(a.g3, rest);
    var r2 := a.val + GapText(a.g2, r3);
    PlainIsIntact(a.key);
    PieceHeight(a.key, a.g0, ['='] + GapText(a.g1, r2), h);
    PieceHeight(['='], a.g1, r2, h);
    PieceHeight(a.val, a.g2, r3, h);
    PieceHeight([','], a.g3, rest, h);
  }

  lemma {:induction false} OptsHeight(opts: seq<OptL>, rest: string, h: nat)
    requires GoodOpts(opts) && QuietOpts(opts)
    ensures Height(PrintOpts(opts, rest), h) == Height(rest, h)
  {
    if opts != [] {
      var o, r := opts[0], PrintOpts(opts[1..], rest);
      var word := if o.isRepeat then "repeat" else "sequence";
      PlainIsIntact(word);
      PlainIsIntact(o.digits);
      PieceHeight(word, o.g0, ['='] + GapText(o.g1, o.digits + GapText(o.g2, r)), h);
      PieceHeight(['='], o.g1, o.digits + GapText(o.g2, r), h);
      PieceHeight(o.digits, o.g2, r, h);
      OptsHeight(opts[1..], rest, h);
    }
  }

  lemma HeaderHeight(c: Call, rest: string, h: nat)
    requires GoodCall(c) && QuietHeader(c)
    ensures Height(PrintHeader(c, rest), h) == Height(rest, h)
  {
    var r := PrintOpts(c.opts, rest);
    PlainIsIntact(c.dest);
    PieceHeight(['-'], c.g0, ['>'] + GapText(c.g1, c.dest + GapText(c.g2, r)), h);
    PieceHeight(['>'], c.g1, c.dest + GapText(c.g2, r), h);
    PieceHeight(c.dest, c.g2, r, h);
    OptsHeight(c.opts, rest, h);
  }

  lemma BracketsHeight(inside: string, rest: string, h: nat)
    requires Intact(inside)
    ensures Height("[" + inside + "]" + rest, h) == Height(rest, h)
  {
    assert ("[" + inside + "]" + rest)[1..] == inside + ("]" + rest);
    IntactPrefix(inside, "]" + rest, h + 1);
    assert ("]" + rest)[1..] == rest;
  }

  lemma {:induction false} BodyHeight(b: Body, rest: string, h: nat)
    requires GoodBody(b) && QuietBody(b)
    ensures Height(PrintBody(b, rest), h) == Height(rest, h)
    decreases b, 1
  {
    match b
    case End =>
    case WithAttr(attr, more) =>
      AttrHeight(attr, PrintBody(more, rest), h);
      BodyHeight(more, rest, h);
    case WithCall(c, more) =>
      var r := GapText(c.close, PrintBody(more, rest));
      HeaderHeight(c, "[" + Inside(c) + "]" + r, h);
      InsideIntact(c);
      BracketsHeight(Inside(c), r, h);
      GapHeight(c.close, PrintBody(more, rest), h);
      BodyHeight(more, rest, h);
  }

  lemma {:induction false} InsideIntact(c: Call)
    requires GoodCall(c) && QuietInside(c)
    ensures Intact(Inside(c))
    decreases c, 0
  {
    GapHeight(c.open, PrintBody(c.body, ""), 0);
    BodyHeight(c.body, "", 0);
  }

  lemma {:induction false} QuietIsVerbatim(b: Body)
    requires GoodBody(b) && QuietBody(b)
    ensures AllVerbatim(b)
  {
    match b
    case End =>
    case WithAttr(a, more) =>
      HeightNulFree(a.val, 0);
      QuietIsVerbatim(more);
    case WithCall(c, more) =>
      InsideIntact(c);
      QuietIsVerbatim(c.body);
      QuietIsVerbatim(more);
  }

  /** It is enough that each string and each comment inside a call balances its own brackets and has no NUL. */
  lemma {:induction false} NestedQuietIsVerbatim(b: Body)
    requires GoodBody(b) && NestedQuiet(b)
    ensures AllVerbatim(b)
  {
    match b
    case End =>
    case WithAttr(_, more) => NestedQuietIsVerbatim(more);
    case WithCall(c, more) =>
      InsideIntact(c);
      QuietIsVerbatim(c.body);
      NestedQuietIsVerbatim(more);
  }

  lemma {:induction false} AllIsVerbatim(b: Body)
    requires AllVerbatim(b)
    ensures Verbatim(b)
  {
    match b
    case End =>
    case WithAttr(_, more) => AllIsVerbatim(more);
    case WithCall(_, more) => AllIsVerbatim(more);
  }

  // ---------- scanning a printed request ----------

  lemma ScanOpt(o: OptL, rest: string)
    requires GoodOptL(o) && (o.g2 != [] || rest == "" || !IsDigit(rest[0]))
    ensures Scan(EdgeDef, PrintOpt(o, rest))
            == [if o.isRepeat then REPEAT else SEQUENCE, EQUALS, NUMBER(NumeralValue(o.digits))] + Scan(EdgeDef, rest)
  {
    var word := if o.isRepeat then "repeat" else "sequence";
    var r := o.digits + GapText(o.g2, rest);
    OptWord(o);
    ScanWordGap(EdgeDef, word, o.g0, ['='] + GapText(o.g1, r));
    ScanPunctuationGap(EdgeDef, '=', o.g1, r);
    ScanNumeralGap(EdgeDef, o.digits, o.g2, rest);
    Three(if o.isRepeat then REPEAT else SEQUENCE, EQUALS, NUMBER(NumeralValue(o.digits)), Scan(EdgeDef, rest));
  }

  lemma OptWord(o: OptL)
    ensures var word := if o.isRepeat then "repeat" else "sequence";
            IsIdent(word) && Keyword(EdgeDef, word) == if o.isRepeat then REPEAT else SEQUENCE
  {
  }

  lemma {:induction false} ScanOpts(opts: seq<OptL>, rest: string)
    requires GoodOpts(opts)
    requires rest != "" && rest[0] == '['
    ensures opts == [] || PrintOpts(opts, rest)[0] == 'r' || PrintOpts(opts, rest)[0] == 's'
    ensures Scan(EdgeDef, PrintOpts(opts, rest)) == OptTokens(OptsOf(opts), Scan(EdgeDef, rest))
  {
    if opts != [] {
      var o, r := opts[0], PrintOpts(opts[1..], rest);
      ScanOpts(opts[1..], rest);
      ScanOpt(o, r);
      assert OptsOf(opts)[1..] == OptsOf(opts[1..]);
    }
  }

  lemma ScanHeader(c: Call, rest: string)
    requires GoodCall(c) && rest != "" && rest[0] == '['
    ensures Scan(Initial, PrintHeader(c, rest))
            == [DASH] + ([ARROW] + ([IDENT(c.dest)] + OptTokens(OptsOf(c.opts), Scan(EdgeDef, rest))))
  {
    hide Scan, GapText;
    var r := PrintOpts(c.opts, rest);
    ScanPunctuationGap(Initial, '-', c.g0, ['>'] + GapText(c.g1, c.dest + GapText(c.g2, r)));
    ScanPunctuationGap(Initial, '>', c.g1, c.dest + GapText(c.g2, r));
    ScanWordGap(EdgeDef, c.dest, c.g2, r);
    ScanOpts(c.opts, rest);
  }

  lemma ScanBrackets(c: Call, rest: string)
    requires GoodCall(c) && Intact(Inside(c))
    ensures Scan(EdgeDef, "[" + Inside(c) + "]" + GapText(c.close, rest))
            == [BLOB(Inside(c) + "]")] + Scan(Initial, rest)
  {
    ScanBlob(Inside(c), GapText(c.close, rest));
    ScanGap(Initial, c.close, rest);
  }

  lemma ScanCall(c: Call, rest: string)
    requires GoodCall(c) && Intact(Inside(c))
    ensures Scan(Initial, PrintCall(c, rest))
            == EdgeTokens(c.dest, OptsOf(c.opts), Inside(c) + "]", Scan(Initial, rest))
  {
    ScanBrackets(c, rest);
    ScanHeader(c, "[" + Inside(c) + "]" + GapText(c.close, rest));
    var tail := OptTokens(OptsOf(c.opts), [BLOB(Inside(c) + "]")] + Scan(Initial, rest));
    Three(DASH, ARROW, IDENT(c.dest), tail);
  }

  lemma ScannedVerbatim(s: string)
    requires IsValueText(s)
    ensures ValueToken(ScannedValue(s)) == ValueToken(ReadValue(s)) <==> NulFree(s)
  {
    ScannedText(s);
  }

  lemma {:induction false} ScanBody(b: Body, rest: string)
    requires GoodBody(b) && Verbatim(b)
    ensures Scan(Initial, PrintBody(b, rest)) == ItemTokens(Items(b), Scan(Initial, rest))
  {
    match b
    case End =>
    case WithAttr(a, more) =>
      ScanBody(more, rest);
      ScannedVerbatim(a.val);
      ScanAttr(a.key, a.g0, a.g1, a.val, a.g2, a.g3, PrintBody(more, rest));
      assert Items(b)[1..] == Items(more);
    case WithCall(c, more) =>
      ScanBody(more, rest);
      ScanCall(c, PrintBody(more, rest));
      assert Items(b)[1..] == Items(more);
  }

  lemma {:induction false} ScanAttrs(attrs: seq<AttrL>, rest: string)
    requires GoodAttrLs(attrs) && VerbatimAttrs(attrs)
    ensures Scan(Initial, PrintAttrs(attrs, rest)) == AttrTokens(AttrsOf(attrs), Scan(Initial, rest))
  {
    if attrs != [] {
      var a, r := attrs[0], PrintAttrs(attrs[1..], rest);
      ScanAttrs(attrs[1..], rest);
      ScannedVerbatim(a.val);
      ScanAttr(a.key, a.g0, a.g1, a.val, a.g2, a.g3, r);
      OneAttrTokens(AttrOf(a), Scan(Initial, r));
      assert AttrsOf(attrs)[1..] == AttrsOf(attrs[1..]);
    }
  }

  lemma ScanNodeRule(rule: RuleL, rest: string)
    requires GoodRuleL(rule) && rule.NodeL? && VerbatimRule(rule)
    ensures Scan(Initial, PrintRule(rule, rest))
            == [IDENT(rule.name), OBRACKET] + AttrTokens(AttrsOf(rule.attrs), [CBRACKET] + Scan(Initial, rest))
  {
    hide Scan, GapText;
    var r2 := [']'] + GapText(rule.g2, rest);
    var r1 := PrintAttrs(rule.attrs, r2);
    ScanWordGap(Initial, rule.name, rule.g0, ['['] + GapText(rule.g1, r1));
    ScanPunctuationGap(Initial, '[', rule.g1, r1);
    ScanAttrs(rule.attrs, r2);
    ScanPunctuationGap(Initial, ']', rule.g2, rest);
    Two(IDENT(rule.name), OBRACKET, AttrTokens(AttrsOf(rule.attrs), [CBRACKET] + Scan(Initial, rest)));
  }

  lemma ScanTopRule(g0: Gap, body: Body, g1: Gap, rest: string)
    requires GoodRuleL(TopL(g0, body, g1)) && Verbatim(body)
    ensures Scan(Initial, PrintRule(TopL(g0, body, g1), rest))
            == [OBRACKET] + ItemTokens(Items(body), [CBRACKET] + Scan(Initial, rest))
  {
    hide Scan, GapText, PrintBody, ItemTokens, Items;
    var r := [']'] + GapText(g1, rest);
    ScanPunctuationGap(Initial, '[', g0, PrintBody(body, r));
    ScanBody(body, r);
    ScanPunctuationGap(Initial, ']', g1, rest);
  }

  lemma ScanRule(rule: RuleL, rest: string)
    requires GoodRuleL(rule) && VerbatimRule(rule)
    ensures Scan(Initial, PrintRule(rule, rest)) == OneRuleTokens(RuleOf(rule), Scan(Initial, rest))
  {
    match rule
    case NodeL(_, _, _, _, _) => ScanNodeRule(rule, rest);
    case TopL(g0, body, g1) => ScanTopRule(g0, body, g1, rest);
  }

  lemma {:induction false} ScanRules(rules: seq<RuleL>)
    requires GoodRuleLs(rules) && VerbatimRules(rules)
    ensures Scan(Initial, PrintRules(rules)) == RuleTokens(RulesOf(rules), [])
  {
    if rules != [] {
      ScanRule(rules[0], PrintRules(rules[1..]));
      ScanRules(rules[1..]);
      assert RulesOf(rules)[1..] == RulesOf(rules[1..]);
    }
  }

  // ---------- and only then ----------

  lemma CancelOne<X>(t: X, x: seq<X>, y: seq<X>)
    requires [t] + x == [t] + y
    ensures x == y
  {
    Cons(t, x);
    Cons(t, y);
  }

  lemma CancelPrefix<X>(p: seq<X>, x: seq<X>, y: seq<X>)
    requires p + x == p + y
    ensures x == y
  {
    assert x == (p + x)[|p|..] && y == (p + y)[|p|..];
  }

  lemma AttrOnly(a: AttrL, rest: string, ts: seq<Token>)
    requires GoodAttrL(a) && Scan(Initial, PrintAttrL(a, rest)) == AttrTokens([AttrOf(a)], ts)
    ensures NulFree(a.val) && Scan(Initial, rest) == ts
  {
    hide Scan;
    ScanAttr(a.key, a.g0, a.g1, a.val, a.g2, a.g3, rest);
    SameAttr(a, Scan(Initial, rest), ts);
  }

  lemma SameAttr(a: AttrL, x: seq<Token>, y: seq<Token>)
    requires GoodAttrL(a) && AttrTokens([Attr(a.key, ScannedValue(a.val))], x) == AttrTokens([AttrOf(a)], y)
    ensures NulFree(a.val) && x == y
  {
    OneAttr(Attr(a.key, ScannedValue(a.val)), x);
    OneAttr(AttrOf(a), y);
    ScannedVerbatim(a.val);
  }

  lemma OneAttr(attr: Attr, x: seq<Token>)
    ensures var ts := AttrTokens([attr], x);
            |ts| >= 4 && ts[2] == ValueToken(attr.val) && ts[4..] == x
  {
    assert [attr][1..] == [];
  }

  lemma {:induction false} AttrsOnly(attrs: seq<AttrL>, rest: string, ts: seq<Token>)
    requires GoodAttrLs(attrs) && Scan(Initial, PrintAttrs(attrs, rest)) == AttrTokens(AttrsOf(attrs), ts)
    ensures VerbatimAttrs(attrs) && Scan(Initial, rest) == ts
  {
    if attrs != [] {
      var more := AttrTokens(AttrsOf(attrs[1..]), ts);
      Cons(AttrOf(attrs[0]), AttrsOf(attrs[1..]));
      OneAttrTokens(AttrOf(attrs[0]), more);
      AttrOnly(attrs[0], PrintAttrs(attrs[1..], rest), more);
      AttrsOnly(attrs[1..], rest, ts);
    }
  }

  lemma {:induction false} CancelOpts(opts: seq<EdgeOpt>, x: seq<Token>, y: seq<Token>)
    requires OptTokens(opts, x) == OptTokens(opts, y)
    ensures x == y
  {
    if opts != [] {
      CancelPrefix([if opts[0].Repeat? then REPEAT else SEQUENCE, EQUALS, NUMBER(opts[0].n)],
                   OptTokens(opts[1..], x), OptTokens(opts[1..], y));
      CancelOpts(opts[1..], x, y);
    }
  }

  /** No NUL comes right behind a call. */
  predicate NoNulNext(rest: string) {
    rest == "" || rest[0] != '\0'
  }

  /** If the scanner hands a text in brackets on as it is, then the text is intact. */
  lemma BracketsOnly(inside: string, rest: string, ts: seq<Token>)
    requires NoNulNext(rest) && Scan(EdgeDef, "[" + inside + "]" + rest) == [BLOB(inside + "]")] + ts
    ensures Intact(inside)
  {
    var s := "[" + inside + "]" + rest;
    assert s[1..] == inside + "]" + rest;
    OpenNested(s);
    IntactBlob(inside, rest);
    Cons(BLOB(inside + "]"), ts);
    if n: nat :| BlobLength(s[1..], 1) == Some(n) {
      Cons(BLOB(CString(s[1..n + 1])), Scan(Initial, s[n + 1..]));
      CutAt(inside, rest, s, n);
    }
  }

  /** A longer cut shows nothing of what is behind the call only if a NUL follows at once. */
  lemma CutAt(inside: string, rest: string, s: string, n: nat)
    requires s == "[" + inside + "]" + rest && n + 1 <= |s|
    requires CString(s[1..n + 1]) == inside + "]"
    ensures NulFree(inside)
    ensures n == |inside| + 1 || (rest != "" && rest[0] == '\0')
  {
    var cut := s[1..n + 1];
    NulFreeAppend(inside, "]");
    assert |cut| == n;
    if n > |inside| + 1 {
      assert cut[|inside| + 1] == rest[0];
    }
  }

  lemma CallOnly(c: Call, rest: string, ts: seq<Token>)
    requires GoodCall(c) && NoNulNext(rest)
    requires Scan(Initial, PrintCall(c, rest)) == EdgeTokens(c.dest, OptsOf(c.opts), Inside(c) + "]", ts)
    ensures Intact(Inside(c)) && Scan(Initial, rest) == ts
  {
    hide Scan, OptTokens, Inside, Intact, GapText;
    var text := "[" + Inside(c) + "]" + GapText(c.close, rest);
    ScanHeader(c, text);
    Three(DASH, ARROW, IDENT(c.dest), OptTokens(OptsOf(c.opts), Scan(EdgeDef, text)));
    CancelPrefix([DASH, ARROW, IDENT(c.dest)], OptTokens(OptsOf(c.opts), Scan(EdgeDef, text)),
                 OptTokens(OptsOf(c.opts), [BLOB(Inside(c) + "]")] + ts));
    CancelOpts(OptsOf(c.opts), Scan(EdgeDef, text), [BLOB(Inside(c) + "]")] + ts);
    GapNoNulNext(c.close, rest);
    BracketsOnly(Inside(c), GapText(c.close, rest), ts);
    ScanBrackets(c, rest);
    CancelOne(BLOB(Inside(c) + "]"), Scan(Initial, rest), ts);
  }

  lemma GapNoNulNext(g: Gap, rest: string)
    requires GoodGap(g) && NoNulNext(rest)
    ensures NoNulNext(GapText(g, rest))
  {
    if g != [] {
      assert GoodFiller(g[0]);
    }
  }

  lemma BodyNoNulNext(b: Body, rest: string)
    requires GoodBody(b) && NoNulNext(rest)
    ensures NoNulNext(PrintBody(b, rest))
  {
  }

  lemma {:induction false} BodyOnly(b: Body, rest: string, ts: seq<Token>)
    requires GoodBody(b) && NoNulNext(rest) && Scan(Initial, PrintBody(b, rest)) == ItemTokens(Items(b), ts)
    ensures Verbatim(b) && Scan(Initial, rest) == ts
  {
    match b
    case End =>
    case WithAttr(a, more) =>
      Cons(AttrItem(AttrOf(a)), Items(more));
      AttrOnly(a, PrintBody(more, rest), ItemTokens(Items(more), ts));
      BodyOnly(more, rest, ts);
    case WithCall(c, more) =>
      Cons(EdgeItem(c.dest, OptsOf(c.opts), Inside(c) + "]"), Items(more));
      BodyNoNulNext(more, rest);
      CallOnly(c, PrintBody(more, rest), ItemTokens(Items(more), ts));
      BodyOnly(more, rest, ts);
  }

  lemma RuleOnly(rule: RuleL, rest: string, ts: seq<Token>)
    requires GoodRuleL(rule) && Scan(Initial, PrintRule(rule, rest)) == OneRuleTokens(RuleOf(rule), ts)
    ensures VerbatimRule(rule) && Scan(Initial, rest) == ts
  {
    match rule
    case NodeL(_, _, _, _, _) => NodeOnly(rule, rest, ts);
    case TopL(_, _, _) => TopOnly(rule, rest, ts);
  }

  lemma NodeOnly(rule: RuleL, rest: string, ts: seq<Token>)
    requires GoodRuleL(rule) && rule.NodeL?
    requires Scan(Initial, PrintRule(rule, rest)) == OneRuleTokens(RuleOf(rule), ts)
    ensures VerbatimAttrs(rule.attrs) && Scan(Initial, rest) == ts
  {
    hide Scan, GapText, PrintAttrs, AttrTokens, AttrsOf;
    var r2 := [']'] + GapText(rule.g2, rest);
    var r1 := PrintAttrs(rule.attrs, r2);
    ScanWordGap(Initial, rule.name, rule.g0, ['['] + GapText(rule.g1, r1));
    ScanPunctuationGap(Initial, '[', rule.g1, r1);
    Two(IDENT(rule.name), OBRACKET, Scan(Initial, r1));
    CancelPrefix([IDENT(rule.name), OBRACKET], Scan(Initial, r1), AttrTokens(AttrsOf(rule.attrs), [CBRACKET] + ts));
    AttrsOnly(rule.attrs, r2, [CBRACKET] + ts);
    ScanPunctuationGap(Initial, ']', rule.g2, rest);
    CancelOne(CBRACKET, Scan(Initial, rest), ts);
  }

  lemma TopOnly(rule: RuleL, rest: string, ts: seq<Token>)
    requires GoodRuleL(rule) && rule.TopL?
    requires Scan(Initial, PrintRule(rule, rest)) == OneRuleTokens(RuleOf(rule), ts)
    ensures Verbatim(rule.body) && Scan(Initial, rest) == ts
  {
    hide Scan, GapText, PrintBody, ItemTokens, Items;
    var r := [']'] + GapText(rule.g1, rest);
    ScanPunctuationGap(Initial, '[', rule.g0, PrintBody(rule.body, r));
    CancelOne(OBRACKET, Scan(Initial, PrintBody(rule.body, r)), ItemTokens(Items(rule.body), [CBRACKET] + ts));
    BodyOnly(rule.body, r, [CBRACKET] + ts);
    ScanPunctuationGap(Initial, ']', rule.g1, rest);
    CancelOne(CBRACKET, Scan(Initial, rest), ts);
  }

  lemma {:induction false} RulesOnly(rules: seq<RuleL>)
    requires GoodRuleLs(rules) && Scan(Initial, PrintRules(rules)) == RuleTokens(RulesOf(rules), [])
    ensures VerbatimRules(rules)
  {
    if rules != [] {
      Cons(RuleOf(rules[0]), RulesOf(rules[1..]));
      RuleOnly(rules[0], PrintRules(rules[1..]), RuleTokens(RulesOf(rules[1..]), []));
      RulesOnly(rules[1..]);
      assert forall i | 0 < i < |rules| :: rules[i] == rules[1..][i - 1];
    }
  }

  /**
   Print, scan and parse is the identity, each nested request coming back as the blob of its call,
   exactly for the documents whose strings have no NUL and whose calls balance their brackets and
   have no NUL; the layout does not matter.
   */
  lemma PrintThenParse(doc: Document)
    requires GoodDocument(doc)
    ensures Parse(Scan(Initial, Print(doc))) == Some(RulesOf(doc.rules)) <==> VerbatimRules(doc.rules)
  {
    ScanGap(Initial, doc.lead, PrintRules(doc.rules));
    ParseExact(Scan(Initial, Print(doc)), RulesOf(doc.rules));
    if VerbatimRules(doc.rules) {
      ScanRules(doc.rules);
    }
    if Scan(Initial, Print(doc)) == RuleTokens(RulesOf(doc.rules), []) {
      RulesOnly(doc.rules);
    }
  }

  /** The text of a nested request up to its closing bracket. */
  lemma InsideText(c: Call)
    ensures Inside(c) + "]" == GapText(c.open, PrintBody(c.body, [']'] + ""))
  {
    GapTextAppend(c.open, PrintBody(c.body, ""), "]");
    PrintBodyAppend(c.body, "", "]");
    assert "" + "]" == [']'] + "";
  }

  lemma ScanInside(c: Call)
    requires GoodCall(c) && Verbatim(c.body)
    ensures Scan(Initial, Inside(c) + "]") == ItemTokens(Items(c.body), [CBRACKET] + [])
  {
    InsideText(c);
    ScanGap(Initial, c.open, PrintBody(c.body, [']'] + ""));
    ScanBody(c.body, [']'] + "");
    ScanPunctuation(Initial, ']', "");
  }

  lemma InsideOnly(c: Call)
    requires GoodCall(c) && Scan(Initial, Inside(c) + "]") == ItemTokens(Items(c.body), [CBRACKET] + [])
    ensures Verbatim(c.body)
  {
    InsideText(c);
    ScanGap(Initial, c.open, PrintBody(c.body, [']'] + ""));
    BodyOnly(c.body, [']'] + "", [CBRACKET] + []);
  }

  /** A blob, with the bracket that `HandleEdge` puts back, parses to the nested request. */
  lemma BlobThenParse(c: Call)
    requires GoodCall(c)
    ensures Parse(Scan(Initial, PREFIX + (Inside(c) + "]"))) == Some([TopRule(Items(c.body))])
            <==> Verbatim(c.body)
  {
    ScanPrefix(Inside(c) + "]");
    var rule := TopRule(Items(c.body));
    assert [rule][1..] == [];
    ParseExact(Scan(Initial, PREFIX + (Inside(c) + "]")), [rule]);
    if Verbatim(c.body) {
      ScanInside(c);
    }
    if Scan(Initial, PREFIX + (Inside(c) + "]")) == OneRuleTokens(rule, []) {
      CancelOne(OBRACKET, Scan(Initial, Inside(c) + "]"), ItemTokens(Items(c.body), [CBRACKET] + []));
      InsideOnly(c);
    }
  }
}
