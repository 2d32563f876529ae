/** One request from its text to the calls it makes, with every character and every number spelled out. */
module Example {
  import opened Lexical
  import opened Numbers
  import opened Scanner
  import opened Gaps
  import opened AttributeText
  import opened Grammar
  import opened Blobs
  import opened Sequences
  import opened Ordered
  import opened Actions
  import opened NodeGlob
  import opened Layout
  import opened RoundTrip
  import opened Hops
  import opened Fleet
  import opened Sanity
  import opened Accepted
  import opened Scheduler
  import opened TaskManager
  import opened Service

  const NODE_TEXT: string := "a_1\t[\r\nhostname = \"h\", " + "port = 80, ]\n"
  const LATE_TEXT: string := "-> a_1 repeat = 2 " + "sequence = 7 [ response = 404, ]\n "
  const EARLY_TEXT: string := "-> a_1 [] "
  const TEXT: string := NODE_TEXT + "[ /* c */ response = 200,\n " + LATE_TEXT + EARLY_TEXT + "]\n"

  // ---------- the same as a document ----------

  const SP: Gap := [Blank(' ')]
  const NL: Gap := [Blank('\n')]
  const HOST: AttrL := AttrL("hostname", SP, SP, "\"h\"", [], SP)
  const PORT: AttrL := AttrL("port", SP, SP, "80", [], SP)
  const NODE: RuleL := NodeL("a_1", [Blank('\t')], [Blank('\r'), Blank('\n')], [HOST, PORT], NL)

  const NOT_FOUND: AttrL := AttrL("response", SP, SP, "404", [], SP)
  const LATE: Call :=
    Call([], SP, "a_1", SP, [OptL(true, SP, SP, "2", SP), OptL(false, SP, SP, "7", SP)], SP,
         WithAttr(NOT_FOUND, End), [Blank('\n'), Blank(' ')])
  const EARLY: Call := Call([], SP, "a_1", SP, [], [], End, SP)
  const FOUND: AttrL := AttrL("response", SP, SP, "200", [], [Blank('\n'), Blank(' ')])
  const BODY: Body := WithAttr(FOUND, WithCall(LATE, WithCall(EARLY, End)))
  const TOP: RuleL := TopL([Blank(' '), Comment(" c "), Blank(' ')], BODY, NL)
  const DOC: Document := Document([], [NODE, TOP])

  lemma None(rest: string)
    ensures GapText([], rest) == rest
  {
  }

  lemma One(f: Filler, rest: string)
    ensures GapText([f], rest) == FillerText(f) + rest
  {
    assert [f][1..] == [];
  }

  lemma Pair(f: Filler, g: Filler, rest: string)
    ensures GapText([f, g], rest) == FillerText(f) + (FillerText(g) + rest)
  {
    assert [f, g][1..] == [g];
    One(g, rest);
  }

  lemma Triple(f: Filler, g: Filler, h: Filler, rest: string)
    ensures GapText([f, g, h], rest) == FillerText(f) + (FillerText(g) + (FillerText(h) + rest))
  {
    assert [f, g, h][1..] == [g, h];
    Pair(g, h, rest);
  }

  /** An attribute with one blank around the equals sign. */
  lemma AttrPrinted(key: string, val: string, g3: Gap, rest: string)
    ensures PrintAttrL(AttrL(key, SP, SP, val, [], g3), rest)
            == key + (" " + ("=" + (" " + (val + ("," + GapText(g3, rest))))))
  {
    var r2 := "," + GapText(g3, rest);
    None(r2);
    One(Blank(' '), val + r2);
    One(Blank(' '), "=" + (" " + (val + r2)));
    hide GapText;
  }

  lemma OptPrinted(word: bool, digits: string, rest: string)
    ensures PrintOpt(OptL(word, SP, SP, digits, SP), rest)
            == (if word then "repeat" else "sequence") + (" " + ("=" + (" " + (digits + (" " + rest)))))
  {
    One(Blank(' '), rest);
    One(Blank(' '), digits + (" " + rest));
    One(Blank(' '), "=" + (" " + (digits + (" " + rest))));
    hide GapText;
  }

  lemma NodePrinted(rest: string)
    ensures PrintRule(NODE, rest) == NODE_TEXT + rest
  {
    var r0 := "]" + ("\n" + rest);
    var r1 := "port" + (" " + ("=" + (" " + ("80" + ("," + (" " + r0))))));
    var r2 := "hostname" + (" " + ("=" + (" " + ("\"h\"" + ("," + (" " + r1))))));
    One(Blank('\n'), rest);
    One(Blank(' '), r0);
    One(Blank(' '), r1);
    AttrPrinted("port", "80", SP, r0);
    AttrPrinted("hostname", "\"h\"", SP, r1);
    TwoAttrs(r0);
    Pair(Blank('\r'), Blank('\n'), r2);
    One(Blank('\t'), "[" + ("\r" + ("\n" + r2)));
    hide GapText, PrintAttrL;
    NodeEnd(rest);
    NodeStart(r1);
    Associate("a_1\t[\r\nhostname = \"h\", ", "port = 80, ]\n", rest);
  }

  lemma TwoAttrs(rest: string)
    ensures PrintAttrs([HOST, PORT], rest) == PrintAttrL(HOST, PrintAttrL(PORT, rest))
  {
    hide PrintAttrL;
    assert [HOST, PORT][1..] == [PORT] && [PORT][1..] == [];
    assert PrintAttrs([PORT], rest) == PrintAttrL(PORT, PrintAttrs([], rest));
  }

  lemma NodeStart(rest: string)
    ensures "a_1" + ("\t" + ("[" + ("\r" + ("\n" + ("hostname" + (" " + ("=" + (" " + ("\"h\"" + ("," +
              (" " + rest)))))))))))
            == "a_1\t[\r\nhostname = \"h\", " + rest
  {
  }

  lemma NodeEnd(rest: string)
    ensures "port" + (" " + ("=" + (" " + ("80" + ("," + (" " + ("]" + ("\n" + rest)))))))) == "port = 80, ]\n" + rest
  {
  }

  lemma InsidePrinted()
    ensures Inside(LATE) == " response = 404, " && Inside(EARLY) == ""
  {
    One(Blank(' '), PrintBody(WithAttr(NOT_FOUND, End), ""));
    assert PrintBody(WithAttr(NOT_FOUND, End), "") == PrintAttrL(NOT_FOUND, PrintBody(End, ""));
    AttrPrinted("response", "404", SP, "");
    One(Blank(' '), "");
    hide GapText, PrintAttrL;
    assert "response" + (" " + ("=" + (" " + ("404" + ("," + (" " + "")))))) == "response = 404, ";
  }

  lemma LatePrinted(rest: string)
    ensures PrintCall(LATE, rest) == LATE_TEXT + rest
  {
    InsidePrinted();
    Pair(Blank('\n'), Blank(' '), rest);
    var r := "[" + " response = 404, " + "]" + ("\n" + (" " + rest));
    assert PrintCall(LATE, rest) == PrintHeader(LATE, r);
    OptPrinted(false, "7", r);
    var r1 := "sequence" + (" " + ("=" + (" " + ("7" + (" " + r)))));
    OptPrinted(true, "2", r1);
    var r2 := "repeat" + (" " + ("=" + (" " + ("2" + (" " + r1)))));
    TwoOpts(r);
    One(Blank(' '), r2);
    One(Blank(' '), "a_1" + (" " + r2));
    None(">" + (" " + ("a_1" + (" " + r2))));
    hide GapText, PrintOpt, Inside;
    LateEnd(rest);
    LateStart(r1);
    Associate("-> a_1 repeat = 2 ", "sequence = 7 [ response = 404, ]\n ", rest);
  }

  lemma TwoOpts(rest: string)
    ensures var opts := LATE.opts; PrintOpts(opts, rest) == PrintOpt(opts[0], PrintOpt(opts[1], rest))
  {
    hide PrintOpt;
    var opts := LATE.opts;
    assert opts[1..] == [opts[1]] && [opts[1]][1..] == [];
    assert PrintOpts([opts[1]], rest) == PrintOpt(opts[1], PrintOpts([], rest));
  }

  lemma LateStart(rest: string)
    ensures "-" + (">" + (" " + ("a_1" + (" " + ("repeat" + (" " + ("=" + (" " + ("2" + (" " + rest))))))))))
            == "-> a_1 repeat = 2 " + rest
  {
  }

  lemma LateEnd(rest: string)
    ensures "sequence" + (" " + ("=" + (" " + ("7" + (" " +
              ("[" + " response = 404, " + "]" + ("\n" + (" " + rest))))))))
            == "sequence = 7 [ response = 404, ]\n " + rest
  {
  }

  lemma EarlyPrinted(rest: string)
    ensures PrintCall(EARLY, rest) == EARLY_TEXT + rest
  {
    InsidePrinted();
    var r := "[" + "" + "]" + (" " + rest);
    One(Blank(' '), rest);
    One(Blank(' '), r);
    One(Blank(' '), "a_1" + (" " + r));
    None(">" + (" " + ("a_1" + (" " + r))));
    assert PrintOpts([], r) == r;
    hide GapText, Inside;
    EarlyPieces(rest);
  }

  lemma EarlyPieces(rest: string)
    ensures "-" + (">" + (" " + ("a_1" + (" " + ("[" + "" + "]" + (" " + rest)))))) == EARLY_TEXT + rest
  {
  }

  lemma TopPrinted()
    ensures PrintRule(TOP, "") == "[ /* c */ response = 200,\n " + LATE_TEXT + EARLY_TEXT + "]\n"
  {
    var r := "]" + ("\n" + "");
    var calls := LATE_TEXT + (EARLY_TEXT + r);
    One(Blank('\n'), "");
    EarlyPrinted(r);
    LatePrinted(EARLY_TEXT + r);
    assert PrintBody(BODY, r) == PrintAttrL(FOUND, PrintCall(LATE, PrintCall(EARLY, r))) by {
      BodyPrinted(r);
    }
    AttrPrinted("response", "200", [Blank('\n'), Blank(' ')], calls);
    Pair(Blank('\n'), Blank(' '), calls);
    var body := "response" + (" " + ("=" + (" " + ("200" + ("," + ("\n" + (" " + calls)))))));
    Triple(Blank(' '), Comment(" c "), Blank(' '), body);
    hide GapText, PrintBody, PrintAttrL, PrintCall;
    TopPieces(LATE_TEXT, EARLY_TEXT);
  }

  lemma BodyPrinted(r: string)
    ensures PrintBody(BODY, r) == PrintAttrL(FOUND, PrintCall(LATE, PrintCall(EARLY, r)))
  {
    hide PrintAttrL, PrintCall;
    var last := WithCall(EARLY, End);
    assert PrintBody(last, r) == PrintCall(EARLY, PrintBody(End, r));
    assert PrintBody(WithCall(LATE, last), r) == PrintCall(LATE, PrintBody(last, r));
  }

  lemma TopPieces(late: string, early: string)
    ensures "[" + (" " + ("/*" + " c " + "*/" + (" " + ("response" + (" " + ("=" + (" " + ("200" + ("," +
              ("\n" + (" " + (late + (early + ("]" + ("\n" + "")))))))))))))))
            == "[ /* c */ response = 200,\n " + late + early + "]\n"
  {
  }

  /** The document is the text. */
  lemma TextIsPrinted()
    ensures Print(DOC) == TEXT
  {
    TopPrinted();
    NodePrinted(PrintRule(TOP, ""));
    None(PrintRules([NODE, TOP]));
    hide PrintRule;
    assert [NODE, TOP][1..] == [TOP] && [TOP][1..] == [];
    assert PrintRules([TOP]) == PrintRule(TOP, PrintRules([]));
    Regroup(NODE_TEXT, "[ /* c */ response = 200,\n ", LATE_TEXT, EARLY_TEXT, "]\n");
  }

  lemma Regroup(a: string, b: string, c: string, d: string, e: string)
    ensures a + (b + c + d + e) == a + b + c + d + e
  {
  }

  // ---------- it is a sound document ----------

  lemma HostIsGood()
    ensures GoodAttrL(HOST) && NulFree(HOST.val)
  {
  }

  lemma NumbersAreGood()
    ensures GoodAttrL(PORT) && NulFree(PORT.val)
    ensures GoodAttrL(FOUND) && NulFree(FOUND.val)
    ensures GoodAttrL(NOT_FOUND) && NulFree(NOT_FOUND.val)
    ensures NumeralValue("80") == 80 && NumeralValue("200") == 200 && NumeralValue("404") == 404
    ensures NumeralValue("2") == 2 && NumeralValue("7") == 7
  {
    Digits1("2", 2);
    Digits1("7", 7);
    Digits2("80", 8, 0);
    Digits3("200", 2, 0, 0);
    Digits3("404", 4, 0, 4);
    hide NumeralValue;
  }

  lemma Digits1(s: string, a: nat)
    requires |s| == 1 && a < 10 && s[0] == DigitChar(a)
    ensures IsNumeral(s) && NumeralValue(s) == a
  {
    assert s[..0] == "";
  }

  lemma Digits2(s: string, a: nat, b: nat)
    requires |s| == 2 && a < 10 && b < 10 && s[0] == DigitChar(a) && s[1] == DigitChar(b)
    ensures IsNumeral(s) && NumeralValue(s) == 10 * a + b
  {
    Digits1(s[..1], a);
  }

  lemma Digits3(s: string, a: nat, b: nat, c: nat)
    requires |s| == 3 && a < 10 && b < 10 && c < 10
    requires s[0] == DigitChar(a) && s[1] == DigitChar(b) && s[2] == DigitChar(c)
    ensures IsNumeral(s) && NumeralValue(s) == 100 * a + 10 * b + c
  {
    Digits2(s[..2], a, b);
  }

  lemma LateIsGood()
    ensures GoodCall(LATE) && AllVerbatim(LATE.body)
  {
    NotFoundIsGood();
    LateOptsAreGood();
    GapsAreGood();
    hide GoodOpts, GoodBody, AllVerbatim, GoodGap;
  }

  lemma GapsAreGood()
    ensures GoodGap([]) && GoodGap(SP) && GoodGap([Blank('\n'), Blank(' ')])
  {
  }

  lemma NotFoundIsGood()
    ensures GoodBody(LATE.body) && AllVerbatim(LATE.body)
  {
    NumbersAreGood();
    hide NumeralValue, GoodAttrL;
  }

  lemma LateIsIntact()
    ensures Intact(Inside(LATE))
  {
    InsidePrinted();
    hide Inside;
    PlainIsIntact(" response = 404, ");
  }

  lemma LateOptsAreGood()
    ensures GoodOpts(LATE.opts)
    ensures OptsOf(LATE.opts) == [Repeat(2), Sequence(7)]
  {
    NumbersAreGood();
    hide NumeralValue;
    var opts := LATE.opts;
    assert GoodOptL(opts[0]) && GoodOptL(opts[1]);
    assert opts[1..] == [opts[1]] && [opts[1]][1..] == [];
    assert GoodOpts([opts[1]]);
    assert OptsOf([opts[1]]) == [OptOf(opts[1])];
  }

  lemma EarlyIsGood()
    ensures GoodCall(EARLY) && Intact(Inside(EARLY)) && AllVerbatim(EARLY.body)
  {
    InsidePrinted();
    hide Inside;
  }

  lemma BodyIsGood()
    ensures GoodBody(BODY) && AllVerbatim(BODY)
  {
    NumbersAreGood();
    LateIsGood();
    LateIsIntact();
    EarlyIsGood();
    hide NumeralValue, GoodAttrL, GoodCall, Inside, Intact;
    assert GoodBody(WithCall(EARLY, End)) && AllVerbatim(WithCall(EARLY, End));
    assert AllVerbatim(WithCall(LATE, WithCall(EARLY, End)));
  }

  lemma NodeIsGood()
    ensures GoodRuleL(NODE) && VerbatimRule(NODE)
  {
    HostIsGood();
    NumbersAreGood();
    hide NumeralValue, GoodAttrL;
    assert [HOST, PORT][1..] == [PORT] && [PORT][1..] == [];
    assert GoodAttrLs([PORT]) && VerbatimAttrs([PORT]);
  }

  lemma DocIsSound()
    ensures SoundDocument(DOC)
  {
    NodeIsGood();
    BodyIsGood();
    AllIsVerbatim(BODY);
    CommentIsGood();
    hide GoodBody, AllVerbatim, Verbatim, VerbatimAttrs, GoodAttrLs;
    assert GoodRuleL(TOP);
  }

  lemma CommentIsGood()
    ensures CloseAt(" c ").None?
  {
  }

  // ---------- what the instance makes of it ----------

  const GLOB: string := "a_1 [\n  hostname = \"h\",\n" + "  port = 80,\n]\n"
  const LATE_EDGE: EdgeDetails := EdgeDetails("a_1", "\n    [ response = 404, ]", 2, 7)
  const EARLY_EDGE: EdgeDetails := EdgeDetails("a_1", "\n    []", 0, 0)
  const NODES: map<string, Attributes> := map["a_1" := map["hostname" := "h", "port" := "80"]]
  const PARSED: State :=
    State(map["response" := "200"], NODES, GLOB, {"a_1"}, [LATE_EDGE, EARLY_EDGE])

  lemma Decimals()
    ensures Decimal(80) == "80" && Decimal(200) == "200" && Decimal(1) == "1" && Decimal(2) == "2"
  {
    assert Decimal(20) == "20";
  }

  const NODE_ATTRS: seq<Attr> := [Attr("hostname", Quoted("\"h\"")), Attr("port", Number(80))]

  lemma NodeRuleIs()
    ensures GoodRuleL(NODE) && RuleOf(NODE) == NodeRule("a_1", NODE_ATTRS)
  {
    NodeIsGood();
    NumbersAreGood();
    hide NumeralValue, GoodAttrL;
    assert [HOST, PORT][1..] == [PORT] && [PORT][1..] == [];
    assert GoodAttrLs([PORT]);
    assert AttrsOf([PORT]) == [AttrOf(PORT)] + AttrsOf([]);
  }

  const ITEMS: seq<Item> :=
    [AttrItem(Attr("response", Number(200))),
     EdgeItem("a_1", [Repeat(2), Sequence(7)], " response = 404, ]"), EdgeItem("a_1", [], "]")]

  lemma TopRuleIs()
    ensures GoodRuleL(TOP) && RuleOf(TOP) == TopRule(ITEMS)
  {
    DocIsSound();
    assert GoodRuleL(DOC.rules[1]);
    BodyIsGood();
    NumbersAreGood();
    LateIsGood();
    LateOptsAreGood();
    EarlyIsGood();
    InsidePrinted();
    assert " response = 404, " + "]" == " response = 404, ]" && "" + "]" == "]";
    hide NumeralValue, GoodAttrL, GoodCall, Inside, GoodOpts, OptsOf;
    var last := WithCall(EARLY, End);
    assert GoodBody(last) && Items(last) == [ITEMS[2]] + Items(End);
    assert GoodBody(WithCall(LATE, last)) && Items(WithCall(LATE, last)) == [ITEMS[1]] + Items(last);
  }

  lemma RulesAre()
    ensures GoodRuleLs(DOC.rules) && RulesOf(DOC.rules) == [NodeRule("a_1", NODE_ATTRS), TopRule(ITEMS)]
  {
    NodeRuleIs();
    TopRuleIs();
    hide GoodRuleL, RuleOf;
    var rules := DOC.rules;
    assert rules[1..] == [TOP] && [TOP][1..] == [];
    assert RulesOf([TOP]) == [RuleOf(TOP)] + RulesOf([]);
  }

  lemma AttrsAre()
    ensures AttrMap(NODE_ATTRS) == map["hostname" := "\"h\"", "port" := "80"]
    ensures AttrMap([Attr("response", Number(200))]) == map["response" := "200"]
  {
    Decimals();
    hide Decimal;
    var host, port := NODE_ATTRS[0], NODE_ATTRS[1];
    AttrMapSnoc([], host);
    AttrMapSnoc([host], port);
    assert [] + [host] == [host] && [host] + [port] == NODE_ATTRS;
    var response := Attr("response", Number(200));
    AttrMapSnoc([], response);
    assert [] + [response] == [response];
  }

  lemma TwoKeys()
    ensures SortedKeys({"hostname", "port"}) == ["hostname", "port"]
  {
    var keys := {"hostname", "port"};
    LeastKey();
    assert keys - {"hostname"} == {"port"};
    assert Least({"port"}) == "port";
    assert {"port"} - {"port"} == {};
    hide LexLe;
    assert SortedKeys({"port"}) == ["port"] + SortedKeys({});
  }

  lemma LeastKey()
    ensures Least({"hostname", "port"}) == "hostname"
  {
    assert !LexLe("port", "hostname");
  }

  lemma GlobIs()
    ensures NodeText("a_1", map["hostname" := "\"h\"", "port" := "80"]) == GLOB
  {
    var m: Attributes := map["hostname" := "\"h\"", "port" := "80"];
    TwoKeys();
    assert m.Keys == {"hostname", "port"};
    hide SortedKeys;
    var keys := ["hostname", "port"];
    assert keys[1..] == ["port"] && ["port"][1..] == [];
    assert EntriesText(["port"], m) == "  " + "port" + " = " + "80" + ",\n" + EntriesText([], m);
    assert EntriesText(keys, m) == "  " + "hostname" + " = " + "\"h\"" + ",\n" + EntriesText(["port"], m);
    hide EntriesText;
    GlobPieces();
  }

  lemma GlobPieces()
    ensures "a_1" + " [\n"
            + ("  " + "hostname" + " = " + "\"h\"" + ",\n" + ("  " + "port" + " = " + "80" + ",\n" + ""))
            + "]\n"
            == GLOB
  {
    assert "  " + "port" + " = " + "80" + ",\n" + "" == "  port = 80,\n";
    assert "  port = 80,\n" + "]\n" == "  port = 80,\n]\n";
    HostPieces();
    Around("a_1" + " [\n", "  " + "hostname" + " = " + "\"h\"" + ",\n", "  port = 80,\n", "]\n");
  }

  lemma HostPieces()
    ensures "a_1" + " [\n" + ("  " + "hostname" + " = " + "\"h\"" + ",\n") == "a_1 [\n  hostname = \"h\",\n"
  {
  }

  lemma Around(a: string, b: string, c: string, d: string)
    ensures a + (b + c) + d == (a + b) + (c + d)
  {
  }

  lemma HostUnquoted()
    ensures UnquoteHost(map["hostname" := "\"h\"", "port" := "80"]) == map["hostname" := "h", "port" := "80"]
  {
    UnquotedString("\"h\"");
    assert "\"h\""[1..2] == "h";
    hide Unquoted;
  }

  lemma EdgesAre()
    ensures ItemEdges(ITEMS) == [LATE_EDGE, EARLY_EDGE]
    ensures ItemAttrs(ITEMS) == [Attr("response", Number(200))]
    ensures Names([LATE_EDGE, EARLY_EDGE]) == {"a_1"}
  {
    OneEdgeIs();
    hide Edge;
    var tail, last := [ITEMS[1], ITEMS[2]], [ITEMS[2]];
    assert ITEMS[1..] == tail && tail[1..] == last && last[1..] == [];
    assert ItemEdges(last) == [EARLY_EDGE] + ItemEdges([]);
    assert ItemEdges(tail) == [LATE_EDGE] + ItemEdges(last);
    assert ItemAttrs(last) == ItemAttrs([]);
    assert ItemAttrs(tail) == ItemAttrs(last);
    NamesAre();
  }

  lemma OneEdgeIs()
    ensures Edge(ITEMS[1]) == LATE_EDGE && Edge(ITEMS[2]) == EARLY_EDGE
  {
    PairIs();
    hide EdgePair;
    assert PREFIX + " response = 404, ]" == "\n    [ response = 404, ]" && PREFIX + "]" == "\n    []";
  }

  lemma NamesAre()
    ensures Names([LATE_EDGE, EARLY_EDGE]) == {"a_1"}
  {
    var edges := [LATE_EDGE, EARLY_EDGE];
    assert edges[0].name in Names(edges);
  }

  lemma PairIs()
    ensures EdgePair([Repeat(2), Sequence(7)]) == (2, 7) && EdgePair([]) == (0, 0)
  {
    var opts := [Repeat(2), Sequence(7)];
    assert opts[..1] == [Repeat(2)] && [Repeat(2)][..0] == [];
    assert EdgePair([Repeat(2)]) == (2, 0);
  }

  lemma StateIs()
    ensures Apply(Apply(EMPTY, NodeRule("a_1", NODE_ATTRS)), TopRule(ITEMS)) == PARSED
  {
    AttrsAre();
    GlobIs();
    HostUnquoted();
    EdgesAre();
    hide NodeText, AttrMap, ItemEdges, ItemAttrs, Names, UnquoteHost, SortedKeys;
    assert "" + GLOB == GLOB;
    assert {} + {"a_1"} == {"a_1"};
    assert [] + [LATE_EDGE, EARLY_EDGE] == [LATE_EDGE, EARLY_EDGE];
    var m: Attributes := map["hostname" := "h", "port" := "80"];
    assert map[]["a_1" := m] == NODES;
  }

  lemma TextIsParsed()
    ensures Instance(TEXT) == Some(PARSED)
  {
    hide Print, Scan, Parse, SoundDocument, GoodDocument, VerbatimRules, AllVerbatimRules, Apply, Replay;
    TextIsPrinted();
    DocIsSound();
    SoundIsVerbatim(DOC);
    PrintThenParse(DOC);
    RulesAre();
    TwoRules(NodeRule("a_1", NODE_ATTRS), TopRule(ITEMS));
    StateIs();
  }

  lemma SoundIsVerbatim(doc: Document)
    requires SoundDocument(doc)
    ensures GoodDocument(doc) && VerbatimRules(doc.rules)
  {
  }

  lemma TwoRules(a: Rule, b: Rule)
    ensures Replay(EMPTY, [a, b]) == Apply(Apply(EMPTY, a), b)
  {
    hide Apply;
    var rules := [a, b];
    assert rules[1..] == [b] && [b][1..] == [];
    var s := Apply(EMPTY, a);
    assert Replay(s, [b]) == Replay(Apply(s, b), []);
  }

  lemma NodesAreComplete()
    ensures Complete(NODES)
  {
    Decimals();
    hide Decimal;
    assert IntText("80", 0, 0x8000_0000);
  }

  lemma TopIsStatus()
    ensures Numbered(map["response" := "200"])
  {
    Decimals();
    hide Decimal;
    assert IntText("200", 1, 600);
  }

  /** The text passes the gate. */
  lemma TextIsExecuted()
    ensures Gate(TEXT) == Run(PARSED)
  {
    TextIsParsed();
    NodesAreComplete();
    TopIsStatus();
    hide Instance, SanityChecks, Complete, Numbered;
    SilentOnAccepted(TEXT);
    assert forall d | d in PARSED.destinations :: d in PARSED.nodes;
  }

  // ---------- the calls ----------

  const URL: string := "http://h:80/fidi"

  lemma CallersAre(e: EdgeDetails, copy: nat)
    requires e.name == "a_1"
    ensures CallerOf(PARSED, e, copy) == AppCaller("a_1_" + Decimal(copy), URL, 0, 0, GLOB + e.blob)
  {
    hide Decimal;
    assert "a_1" + "_" == "a_1_";
    assert "http://" + "h" + ":" + "80" + "/fidi" == URL;
  }

  lemma OrderIs(order: seq<EdgeDetails>)
    requires IsDrain(order, PARSED.edges)
    ensures order == [EARLY_EDGE, LATE_EDGE]
  {
    var edges := PARSED.edges;
    Members(order, edges);
    assert multiset(edges)[LATE_EDGE] == 1 && multiset(edges)[EARLY_EDGE] == 1;
    assert order[0] in order && order[1] in order;
    assert order == [order[0], order[1]];
  }

  lemma ScriptIs()
    ensures FullScript([EARLY_EDGE, LATE_EDGE])
            == [Start(Task(EARLY_EDGE, 1)), Join, Start(Task(LATE_EDGE, 1)), Start(Task(LATE_EDGE, 2)), Join]
  {
    var order := [EARLY_EDGE, LATE_EDGE];
    assert order[..1] == [EARLY_EDGE] && [EARLY_EDGE][..0] == [];
    assert Starts(EARLY_EDGE, 1) == Starts(EARLY_EDGE, 0) + [Start(Task(EARLY_EDGE, 1))];
    assert Starts(LATE_EDGE, 1) == Starts(LATE_EDGE, 0) + [Start(Task(LATE_EDGE, 1))];
    assert Starts(LATE_EDGE, 2) == Starts(LATE_EDGE, 1) + [Start(Task(LATE_EDGE, 2))];
    assert Script([EARLY_EDGE]) == Script([]) + JoinBefore([], 0) + Starts(EARLY_EDGE, 1);
    assert Script(order) == Script([EARLY_EDGE]) + [Join] + Starts(LATE_EDGE, 2);
  }

  /**
   Whatever the tie order: the call without a sequence number first, then a join, then the call with
   number 7 twice, and a join.
   */
  lemma CallsAre(calls: seq<ManagerCall>)
    requires Executed(PARSED, calls)
    ensures calls == [
              StartTask(AppCaller("a_1_1", URL, 0, 0, GLOB + "\n    []")),
              JoinTasks,
              StartTask(AppCaller("a_1_1", URL, 0, 0, GLOB + "\n    [ response = 404, ]")),
              StartTask(AppCaller("a_1_2", URL, 0, 0, GLOB + "\n    [ response = 404, ]")),
              JoinTasks]
  {
    hide Decimal, FullScript, CallsFor, CallerOf;
    var order :| IsDrain(order, PARSED.edges) && calls == CallsFor(PARSED, FullScript(order));
    OrderIs(order);
    ScriptIs();
    TaskManager.CallsAt(PARSED, FullScript(order));
    Decimals();
    CallersAre(EARLY_EDGE, 1);
    CallersAre(LATE_EDGE, 1);
    CallersAre(LATE_EDGE, 2);
    assert "a_1_" + "1" == "a_1_1" && "a_1_" + "2" == "a_1_2";
  }
}
