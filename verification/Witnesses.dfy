/** Small inputs, as text, on which the code does not do what one might expect of it. */
module Witnesses {
  import opened Lexical
  import opened Scanner
  import opened ScanSteps
  import opened Gaps
  import opened AttributeText
  import opened Grammar
  import opened Blobs
  import opened Ordered
  import opened Sequences
  import opened Actions
  import opened NodeGlob
  import opened Layout
  import opened RoundTrip
  import opened Hops
  import opened Fleet
  import opened Sanity
  import opened Service
  import AsWritten
  import opened LintWalk
  import opened LintGraph
  import opened LintDrivers

  /** A request and nothing else, without white space. */
  function One(b: Body): Document {
    Document([], [TopL([], b, [])])
  }

  function PlainAttr(key: string, val: string): AttrL {
    AttrL(key, [], [], val, [], [])
  }

  function PlainCall(dest: string, body: Body): Call {
    Call([], [], dest, [], [], [], body, [])
  }

  lemma OneIsGood(b: Body)
    requires GoodBody(b)
    ensures GoodDocument(One(b))
    ensures AllVerbatim(b) ==> SoundDocument(One(b))
  {
    if AllVerbatim(b) {
      AllIsVerbatim(b);
    }
  }

  lemma OneRule(b: Body)
    requires GoodBody(b)
    ensures GoodRuleLs(One(b).rules) && RulesOf(One(b).rules) == [TopRule(Items(b))]
  {
    assert One(b).rules[1..] == [];
  }

  lemma OneReplay(rule: Rule)
    ensures Replay(EMPTY, [rule]) == Apply(EMPTY, rule)
  {
    hide Apply;
    assert [rule][1..] == [];
  }

  /** What an instance makes of the request. */
  lemma OneInstance(b: Body)
    requires GoodBody(b) && AllVerbatim(b)
    ensures Instance(Print(One(b)))
            == Some(State(AttrMap(BodyAttrs(b)), map[], "", Names(ItemEdges(Items(b))), ItemEdges(Items(b))))
  {
    hide Print, Scan, Items, Parse, AttrMap, ItemEdges, Names;
    OneIsGood(b);
    OneRule(b);
    PrintThenParse(One(b));
    ItemAttrsOf(b);
    OneReplay(TopRule(Items(b)));
    assert {} + Names(ItemEdges(Items(b))) == Names(ItemEdges(Items(b)));
    assert [] + ItemEdges(Items(b)) == ItemEdges(Items(b));
  }

  lemma OneCalls(b: Body, nodes: map<string, Attributes>)
    requires GoodBody(b)
    ensures GoodRuleLs(One(b).rules) && DocumentCalls(One(b).rules, nodes) == SubcallsOf(b, nodes)
    ensures DocumentAttrs(One(b).rules) == AttrMap(BodyAttrs(b))
  {
    hide SubcallsOf, AttrMap, BodyAttrs;
    assert One(b).rules[1..] == [];
    assert SubcallsOf(b, nodes) + [] == SubcallsOf(b, nodes);
  }

  lemma OneNodes(b: Body)
    requires GoodBody(b)
    ensures GoodRuleLs(One(b).rules) && DocumentNodes(One(b).rules) == map[]
  {
    hide Items;
    OneRule(b);
    OneReplay(TopRule(Items(b)));
  }

  /** The meaning of the request, without any nodes. */
  lemma OneMeaning(b: Body)
    requires GoodBody(b) && AllVerbatim(b)
    ensures HopTree(Print(One(b))) == Request(map[], AttrMap(BodyAttrs(b)), SubcallsOf(b, map[]))
  {
    hide HopTree, Print, DocumentNodes, DocumentCalls, DocumentAttrs, AttrMap, BodyAttrs, SubcallsOf;
    OneIsGood(b);
    HopsRebuildTheTree(One(b));
    OneNodes(b);
    OneCalls(b, map[]);
  }

  // ---------- a bracket in a string ----------

  /** x="]", */
  const STRAY: Body := WithAttr(PlainAttr("x", "\"]\""), End)

  lemma StrayText()
    ensures Inside(PlainCall("b", STRAY)) == "x=\"" + "]\","
  {
  }

  lemma StrayIsNotIntact()
    ensures !Intact(Inside(PlainCall("b", STRAY)))
  {
    StrayText();
    PlainPrefix("x=\"", "]\",", 0);
  }

  lemma StrayIsGood()
    ensures GoodBody(WithCall(PlainCall("b", STRAY), End))
  {
    assert GoodAttrL(PlainAttr("x", "\"]\""));
    assert GoodBody(STRAY);
  }

  /** A bracket in a string counts: [->b[x="]",]] does not come back. */
  lemma BracketInStringBreaks()
    ensures var doc := One(WithCall(PlainCall("b", STRAY), End));
            GoodDocument(doc) && Parse(Scan(Initial, Print(doc))) != Some(RulesOf(doc.rules))
  {
    var body := WithCall(PlainCall("b", STRAY), End);
    StrayIsGood();
    OneIsGood(body);
    StrayIsNotIntact();
    PrintThenParse(One(body));
    NotVerbatim(body);
  }

  lemma NotVerbatim(b: Body)
    requires !Verbatim(b)
    ensures !VerbatimRules(One(b).rules)
  {
    assert !VerbatimRule(One(b).rules[0]);
  }

  // ---------- a NUL in a nested request ----------

  /** The tokens of one call whose text has no brackets of its own, whatever else it has. */
  lemma CutCall(c: Call)
    requires GoodCall(c) && c.close == [] && '[' !in Inside(c) && ']' !in Inside(c)
    ensures Parse(Scan(Initial, Print(One(WithCall(c, End)))))
            == Some([TopRule([EdgeItem(c.dest, OptsOf(c.opts), CString(Inside(c) + "]"))])])
  {
    hide Scan, Print, PrintHeader, Inside, Parse, OptTokens, OptsOf, BlobLength;
    var text := "[" + Inside(c) + "]" + "]";
    PlainBlob(Inside(c), "]");
    ScanCut(Inside(c), "]");
    ScanHeader(c, text);
    ScanEnd();
    CutText(c);
    ScanPunctuation(Initial, '[', PrintHeader(c, text));
    var blob := CString(Inside(c) + "]");
    Three(DASH, ARROW, IDENT(c.dest), OptTokens(OptsOf(c.opts), [BLOB(blob)] + [CBRACKET]));
    OneEdgeRule(c.dest, OptsOf(c.opts), blob);
  }

  lemma ScanEnd()
    ensures Scan(Initial, "]") == [CBRACKET]
  {
    assert [']'] + "" == "]";
    ScanPunctuation(Initial, ']', "");
  }

  lemma CutText(c: Call)
    requires c.close == []
    ensures Print(One(WithCall(c, End))) == ['['] + PrintHeader(c, "[" + Inside(c) + "]" + "]")
  {
    hide PrintHeader, Inside;
    var rules := One(WithCall(c, End)).rules;
    assert rules[1..] == [] && PrintRules(rules) == PrintRule(rules[0], "");
    var r := [']'] + GapText([], "");
    assert r == "]";
    assert PrintBody(WithCall(c, End), r) == PrintCall(c, PrintBody(End, r));
  }

  lemma OneEdgeRule(dest: string, opts: seq<EdgeOpt>, blob: string)
    ensures Parse([OBRACKET] + EdgeTokens(dest, opts, blob, [CBRACKET]))
            == Some([TopRule([EdgeItem(dest, opts, blob)])])
  {
    var items := [EdgeItem(dest, opts, blob)];
    var rules := [TopRule(items)];
    assert items[1..] == [] && rules[1..] == [];
    assert [CBRACKET] + [] == [CBRACKET];
    assert ItemTokens(items, [CBRACKET]) == EdgeTokens(dest, opts, blob, [CBRACKET]);
    ParseExact([OBRACKET] + EdgeTokens(dest, opts, blob, [CBRACKET]), rules);
  }

  lemma {:induction false} PlainBlob(a: string, b: string)
    requires '[' !in a && ']' !in a
    ensures BlobLength(a + "]" + b, 1) == Some(|a| + 1)
  {
    if a == "" {
      assert a + "]" + b == "]" + b;
    } else {
      assert (a + "]" + b)[1..] == a[1..] + "]" + b;
      PlainBlob(a[1..], b);
    }
  }

  lemma ScanCut(inside: string, rest: string)
    requires BlobLength(inside + "]" + rest, 1) == Some(|inside| + 1)
    ensures Scan(EdgeDef, "[" + inside + "]" + rest) == [BLOB(CString(inside + "]"))] + Scan(Initial, rest)
  {
    var s := "[" + inside + "]" + rest;
    assert s[1..] == inside + "]" + rest;
    OpenNested(s);
    assert s[1..|inside| + 2] == inside + "]" && s[|inside| + 2..] == rest;
  }

  /** A call to `b` with a comment that holds a NUL. */
  const SILENT: Call := Call([], [], "b", [], [], [Comment("\0")], End, [])

  /** The comment is cut open, and the receiver refuses the request. */
  lemma NulInCommentIsRefused()
    ensures var doc := One(WithCall(SILENT, End));
            && GoodDocument(doc)
            && HopTree(Print(doc)).Request? && |HopTree(Print(doc)).calls| == 1
            && HopTree(Print(doc)).calls[0].request == Refused
            && Meaning(doc).calls[0].request.Request?
  {
    var body := WithCall(SILENT, End);
    SilentIsGood();
    OneIsGood(body);
    SilentText();
    CutCall(SILENT);
    OpenComment();
    SilentHop(Print(One(body)));
    OneRule(body);
    assert One(body).rules[1..] == [];
  }

  lemma SilentIsGood()
    ensures GoodCall(SILENT)
  {
    assert CloseAt("\0").None?;
  }

  lemma SilentText()
    ensures Inside(SILENT) == "/*" + "\0" + "*/"
    ensures CString(Inside(SILENT) + "]") == "/*"
  {
    assert SILENT.open[1..] == [];
    var s := "/*" + "\0" + "*/" + "]";
    assert s[2] == '\0';
    IndexOfUnique(s, '\0', 2);
    assert s[..2] == "/*";
  }

  /** A comment that never ends. */
  lemma OpenComment()
    ensures Instance(PREFIX + "/*") == None
  {
    ScanPrefix("/*");
    assert "/*"[2..] == "";
    assert Scan(Initial, "/*") == [Invalid('/')];
    var ts := [OBRACKET] + [Invalid('/')];
    assert ts[1..] == [Invalid('/')];
    assert ParseItems([Invalid('/')]) == ([], [Invalid('/')]);
    assert ParseRule(ts).None?;
  }

  lemma SilentHop(text: string)
    requires Parse(Scan(Initial, text)) == Some([TopRule([EdgeItem("b", [], "/*")])])
    requires Instance(PREFIX + "/*") == None
    ensures var t := HopTree(text); t.Request? && |t.calls| == 1 && t.calls[0].request == Refused
  {
    var items := [EdgeItem("b", [], "/*")];
    var e := Edge(items[0]);
    assert items[1..] == [] && [TopRule(items)][1..] == [];
    assert ItemEdges(items) == [e];
    assert Replay(EMPTY, [TopRule(items)]) == Apply(EMPTY, TopRule(items));
    var st := Instance(text).value;
    assert st.edges == [e] && st.glob == "";
    assert Payload(st, e) == PREFIX + "/*";
    HopCallsHead(text, st.edges);
  }

  // ---------- a word for a number that nobody checks ----------

  /** response=5,unresponsive_for_sec=soon, */
  const UNCHECKED: Body :=
    WithAttr(PlainAttr("response", "5"), WithAttr(PlainAttr("unresponsive_for_sec", "soon"), End))

  lemma ResponseIsGood()
    ensures GoodAttrL(PlainAttr("response", "5")) && NulFree("5")
    ensures AttrOf(PlainAttr("response", "5")) == Attr("response", Number(5))
  {
    assert "5"[..0] == "" && NumeralValue("5") == 10 * NumeralValue("") + DigitValue('5');
  }

  lemma SoonIsGood()
    ensures GoodAttrL(PlainAttr("unresponsive_for_sec", "soon")) && NulFree("soon")
    ensures AttrOf(PlainAttr("unresponsive_for_sec", "soon")) == Attr("unresponsive_for_sec", Name("soon"))
  {
    LongNameIsGood();
    hide NumeralValue;
  }

  lemma LongNameIsGood()
    ensures GoodName("unresponsive_for_sec")
  {
  }

  lemma UncheckedIsGood()
    ensures GoodBody(UNCHECKED) && AllVerbatim(UNCHECKED)
    ensures BodyAttrs(UNCHECKED) == [Attr("response", Number(5)), Attr("unresponsive_for_sec", Name("soon"))]
    ensures ItemEdges(Items(UNCHECKED)) == []
  {
    hide GoodAttrL, AttrOf;
    ResponseIsGood();
    SoonIsGood();
    var soon := WithAttr(PlainAttr("unresponsive_for_sec", "soon"), End);
    assert BodyAttrs(soon) == [Attr("unresponsive_for_sec", Name("soon"))];
    assert Items(soon) == [AttrItem(AttrOf(PlainAttr("unresponsive_for_sec", "soon")))];
    assert Items(soon)[1..] == [];
    assert ItemEdges(Items(soon)) == ItemEdges([]);
    assert Items(UNCHECKED) == [AttrItem(AttrOf(PlainAttr("response", "5")))] + Items(soon);
    Cons(AttrItem(AttrOf(PlainAttr("response", "5"))), Items(soon));
  }

  /** A request that parses and passes the checks, and still cannot be executed. */
  lemma UncheckedKeyAborts()
    ensures GoodDocument(One(UNCHECKED)) && Gate(Print(One(UNCHECKED))) == Abort
  {
    hide Print, GoodBody, AllVerbatim, Items, AttrMap, Instance, SanityChecks, WindowDefined;
    UncheckedIsGood();
    OneIsGood(UNCHECKED);
    OneInstance(UNCHECKED);
    UncheckedKeyThrows();
    assert Names([]) == {};
  }

  // ---------- a node called Source ----------

  const TO_B: Body := WithCall(PlainCall("b", End), End)
  const VIA_SOURCE: Body := WithCall(PlainCall("Source", TO_B), End)

  const LEAF: Tree := Request(map[], map[], [])
  const B_TREE: Tree := Request(map[], map[], [Subcall("b", 0, 0, LEAF)])
  const SOURCE_TREE: Tree := Request(map[], map[], [Subcall("Source", 0, 0, B_TREE)])

  lemma ToBIsGood()
    ensures GoodBody(TO_B) && AllVerbatim(TO_B)
    ensures BodyAttrs(TO_B) == [] && SubcallsOf(TO_B, map[]) == [Subcall("b", 0, 0, LEAF)]
  {
    assert Layout.Inside(PlainCall("b", End)) == "";
    assert GoodCall(PlainCall("b", End));
  }

  lemma ViaSourceIsGood()
    ensures GoodBody(VIA_SOURCE) && AllVerbatim(VIA_SOURCE)
    ensures BodyAttrs(VIA_SOURCE) == [] && SubcallsOf(VIA_SOURCE, map[]) == [Subcall("Source", 0, 0, B_TREE)]
  {
    ToBIsGood();
    var c := PlainCall("Source", TO_B);
    assert GoodCall(c);
    InsideIntact(c);
  }

  lemma LeafIsWalkable()
    ensures Walkable(LEAF)
  {
    EmptyChecksDoNotThrow({});
    assert Destinations([]) == {};
  }

  lemma OneIsWalkable(dest: string, t: Tree)
    requires Walkable(t)
    ensures Walkable(Request(map[], map[], [Subcall(dest, 0, 0, t)]))
  {
    EmptyChecksDoNotThrow(Destinations([Subcall(dest, 0, 0, t)]));
    hide SanityChecks;
  }

  lemma EmptyChecksDoNotThrow(destinations: set<string>)
    ensures SanityChecks(map[], destinations, map[]).Checked?
  {
  }

  lemma SourceMakesCalls()
    ensures !NoSourceCalls(SOURCE_TREE, "TopNode")
  {
    assert !NoSourceCalls(B_TREE, "Source");
    assert !NoSourceBelow(SOURCE_TREE.calls);
  }

  /** The linter gets through [->Source[->b[]]], and draws a second preamble inside the graph. */
  lemma SourceIsFramedTwice(w: Walk)
    ensures var text := Print(One(VIA_SOURCE));
            && Walkable(HopTree(text))
            && (ValidWalk(text, w) ==> !NoFrames(Framed(text, w)))
  {
    hide Print, HopTree, Walkable, NoSourceCalls, ValidWalk, NoFrames, Framed, SubcallsOf, BodyAttrs;
    var text := Print(One(VIA_SOURCE));
    ViaSourceIsGood();
    OneMeaning(VIA_SOURCE);
    LeafIsWalkable();
    OneIsWalkable("b", LEAF);
    OneIsWalkable("Source", B_TREE);
    SourceMakesCalls();
    if ValidWalk(text, w) {
      OneGraph(text, w);
    }
  }

  // ---------- a request that is refused at its gate ----------

  lemma NothingIsSaid()
    ensures !Acts(B_TREE) && Calls(B_TREE, []) == [] && !CallersAct(B_TREE)
  {
    SilentIffSound(map[], Destinations(B_TREE.calls), map[]);
    hide SanityChecks;
  }

  lemma OneCallIsDrawn()
    ensures |TreeEdges(B_TREE, "Source", "TopNode", [])| == 2
  {
    var path: seq<nat> := [];
    var calls := B_TREE.calls;
    assert |TreeEdges(LEAF, "TopNode", "b", path + [0])| == 1;
    assert calls[1..] == [] && CallEdges(calls[1..], "TopNode", path) == [];
    assert CallEdges(calls, "TopNode", path) == TreeEdges(LEAF, "TopNode", "b", path + [0]) + [];
  }

  /** [->b[]] says no response: the fleet makes no call, and the linter draws one. */
  lemma LintDrawsMoreThanIsCalled()
    ensures var t := HopTree(Print(One(TO_B)));
            && Walkable(t)
            && Calls(t, []) == []
            && |TreeEdges(t, "Source", "TopNode", [])| == 2
            && !CallersAct(t)
  {
    hide Print, HopTree, Walkable, Calls, TreeEdges, CallersAct, SubcallsOf, BodyAttrs;
    ToBIsGood();
    OneMeaning(TO_B);
    LeafIsWalkable();
    OneIsWalkable("b", LEAF);
    NothingIsSaid();
    OneCallIsDrawn();
  }

  // ---------- a NUL in a string of a definition ----------

  /** name[key=val,] */
  function Definition(name: string, key: string, val: string): RuleL {
    NodeL(name, [], [], [PlainAttr(key, val)], [])
  }

  lemma ScanCutDefinition(name: string, key: string, val: string, rest: string)
    requires GoodName(name) && GoodName(key) && IsValueText(val)
    ensures Scan(Initial, PrintRule(Definition(name, key, val), rest))
            == OneRuleTokens(NodeRule(name, [Attr(key, ScannedValue(val))]), Scan(Initial, rest))
  {
    hide Scan, ScannedValue;
    var r2 := [']'] + GapText([], rest);
    var r1 := PrintAttr(key, [], [], val, [], [], r2);
    var attrs := [PlainAttr(key, val)];
    assert attrs[1..] == [] && PrintAttrs(attrs, r2) == r1;
    ScanWordGap(Initial, name, [], ['['] + GapText([], r1));
    ScanPunctuationGap(Initial, '[', [], r1);
    ScanAttr(key, [], [], val, [], [], r2);
    ScanPunctuationGap(Initial, ']', [], rest);
    Two(IDENT(name), OBRACKET, Scan(Initial, r1));
  }

  lemma SortedOne(k: string)
    ensures SortedKeys({k}) == [k]
  {
    assert Least({k}) == k;
    assert {k} - {k} == {};
  }

  /** How a definition with one attribute is printed. */
  lemma OneEntry(name: string, key: string, val: string)
    ensures NodeText(name, map[key := val]) == name + " [\n" + ("  " + key + " = " + val + ",\n") + "]\n"
  {
    var m := map[key := val];
    SortedOne(key);
    assert m.Keys == {key};
    var keys := [key];
    assert keys[1..] == [];
    assert EntriesText(keys, m) == "  " + key + " = " + val + ",\n" + "";
  }

  lemma OneAttrMap(key: string, val: Value)
    ensures AttrMap([Attr(key, val)]) == map[key := ValueText(val)]
  {
    AttrMapSnoc([], Attr(key, val));
    assert [] + [Attr(key, val)] == [Attr(key, val)];
  }

  /** A string that is cut off in front of its NUL. */
  function CutString(before: string, after: string): string {
    "\"" + before + "\0" + after + "\""
  }

  lemma CutStringIsOpen(before: string, after: string)
    requires '"' !in before && '"' !in after && NulFree(before)
    ensures IsValueText(CutString(before, after))
    ensures ScannedValue(CutString(before, after)) == Quoted("\"" + before)
  {
    var s := CutString(before, after);
    assert forall i | 0 < i < |s| - 1 :: s[i] in before || s[i] in after || s[i] == '\0';
    assert IsQuoted(s);
    assert forall i | 0 < i < |before| + 1 :: s[i] == before[i - 1];
    IndexOfUnique(s, '\0', |before| + 1);
    assert s[..|before| + 1] == "\"" + before;
  }

  const CUT: string := CutString("a", "b")

  /** n[url="a\0b",] is accepted, and what it is passed on as is not. */
  lemma CutStringBreaksTheGlob()
    ensures var text := Print(Document([], [Definition("n", "url", CUT)]));
            Instance(text).Some? && Instance(Instance(text).value.glob).None?
  {
    hide Scan, Print, PrintRule, Parse, NodeText, CutString, IsValueText, ScannedValue, OneRuleTokens, RuleTokens,
         Replay, Apply;
    var rules := [Definition("n", "url", CUT)];
    var rule := NodeRule("n", [Attr("url", Quoted("\"a"))]);
    CutStringIsOpen("a", "b");
    assert "\"" + "a" == "\"a";
    OnePrinted(rules[0]);
    ScanCutDefinition("n", "url", CUT, "");
    ScanNothing();
    OneTokens(rule);
    ParseExact(OneRuleTokens(rule, []), [rule]);
    OneReplay(rule);
    DefinitionGlob("n", "url", Quoted("\"a"));
    OneEntry("n", "url", "\"a");
    OpenStringIsRefused();
  }

  lemma OneTokens(rule: Rule)
    ensures RuleTokens([rule], []) == OneRuleTokens(rule, [])
  {
    hide OneRuleTokens;
    assert [rule][1..] == [];
  }

  lemma DefinitionGlob(name: string, key: string, val: Value)
    ensures Apply(EMPTY, NodeRule(name, [Attr(key, val)])).glob == NodeText(name, map[key := ValueText(val)])
  {
    hide NodeText;
    OneAttrMap(key, val);
    assert "" + NodeText(name, map[key := ValueText(val)]) == NodeText(name, map[key := ValueText(val)]);
  }

  lemma OnePrinted(rule: RuleL)
    ensures Print(Document([], [rule])) == PrintRule(rule, "")
  {
    hide PrintRule;
    var rules := [rule];
    assert rules[1..] == [];
    assert PrintRules(rules) == PrintRule(rule, PrintRules([]));
  }

  lemma ScanNothing()
    ensures Scan(Initial, "") == []
  {
  }

  lemma OpenStringIsRefused()
    ensures Instance("n" + " [\n" + ("  " + "url" + " = " + "\"a" + ",\n") + "]\n") == None
  {
    hide Scan;
    var tail := "\"a,\n]\n";
    var sp, nl := [Blank(' ')], [Blank('\n')];
    OneBlank(' ', tail);
    OneBlank(' ', ['='] + GapText(sp, tail));
    var url := "url" + GapText(sp, ['='] + GapText(sp, tail));
    OneBlank(' ', ['['] + GapText(nl, [' '] + ([' '] + url)));
    OneBlank('\n', [' '] + ([' '] + url));
    assert "n" + " [\n" + ("  " + "url" + " = " + "\"a" + ",\n") + "]\n"
        == "n" + GapText(sp, ['['] + GapText(nl, [' '] + ([' '] + url)));
    ScanWordGap(Initial, "n", sp, ['['] + GapText(nl, [' '] + ([' '] + url)));
    ScanPunctuationGap(Initial, '[', nl, [' '] + ([' '] + url));
    ScanBlank(Initial, ' ', [' '] + url);
    ScanBlank(Initial, ' ', url);
    ScanWordGap(Initial, "url", sp, ['='] + GapText(sp, tail));
    ScanPunctuationGap(Initial, '=', sp, tail);
    ScanOpenString(tail);
    StuckAtValue("n", "url", '"', Scan(Initial, tail[1..]));
  }

  lemma ScanOpenString(s: string)
    requires s != "" && s[0] == '"' && '"' !in s[1..]
    ensures Scan(Initial, s) == [Invalid('"')] + Scan(Initial, s[1..])
  {
    assert s == "\"" + s[1..];
    AsWritten.NextOpenString(s[1..]);
    hide Next, Scan;
    ScanNext(Initial, s);
  }

  lemma StuckAtValue(name: string, key: string, c: char, rest: seq<Token>)
    ensures Parse([IDENT(name)] + ([OBRACKET] + ([IDENT(key)] + ([EQUALS] + ([Invalid(c)] + rest))))).None?
  {
    var list := [IDENT(key)] + ([EQUALS] + ([Invalid(c)] + rest));
    var ts := [IDENT(name)] + ([OBRACKET] + list);
    assert ts[2..] == list;
    assert list[2] == Invalid(c);
    assert ParseAttr(list).None?;
  }

  // ---------- and a definition that carries a call ----------

  const CARRIED: string := ",][->n[k=v,]]p[k=v"
  const OPENS: string := CutString("x", "")
  const CARRIES: string := CutString(CARRIED, "")

  /** n[a="x\0",]m[b=",][->n[k=v,]]p[k=v\0",][->n[]] */
  const SMUGGLER: Document :=
    Document([], [Definition("n", "a", OPENS), Definition("m", "b", CARRIES),
                  TopL([], WithCall(PlainCall("n", End), End), [])])

  /** What the first instance posts. */
  const SENT: string :=
    ("n" + " [\n" + ("  " + "a" + " = " + "\"x" + ",\n") + "]\n")
    + ("m" + " [\n" + ("  " + "b" + " = " + ("\"" + CARRIED) + ",\n") + "]\n")
    + (PREFIX + "]")

  /** What its first instance understands. */
  lemma SmugglerInstance()
    ensures Instance(Print(SMUGGLER)).Some?
    ensures var st := Instance(Print(SMUGGLER)).value;
            var e := EdgeDetails("n", PREFIX + "]", 0, 0);
            st.edges == [e] && Payload(st, e) == SENT
  {
    hide Scan, Parse, NodeText, PrintRule, Print, CutString, IsValueText, ScannedValue, OneRuleTokens, RuleTokens,
         Apply, Replay;
    var a, b := NodeRule("n", [Attr("a", Quoted("\"x"))]), NodeRule("m", [Attr("b", Quoted("\"" + CARRIED))]);
    var top := TopRule([EdgeItem("n", [], "]")]);
    SmugglerText();
    CutStringIsOpen("x", "");
    assert "\"" + "x" == "\"x";
    CutStringIsOpen(CARRIED, "");
    var last := PrintRule(SMUGGLER.rules[2], "");
    ScanCutDefinition("n", "a", OPENS, PrintRule(SMUGGLER.rules[1], last));
    ScanCutDefinition("m", "b", CARRIES, last);
    ScanLast();
    ThreeRules(a, b, top);
    ParseExact(OneRuleTokens(a, OneRuleTokens(b, OneRuleTokens(top, []))), [a, b, top]);
    SmugglerState(a, b, top);
    SmugglerGlob();
  }

  lemma SmugglerText()
    ensures Print(SMUGGLER)
            == PrintRule(SMUGGLER.rules[0], PrintRule(SMUGGLER.rules[1], PrintRule(SMUGGLER.rules[2], "")))
  {
    hide PrintRule;
    var rules := SMUGGLER.rules;
    assert rules[1..] == [rules[1], rules[2]] && rules[1..][1..] == [rules[2]] && [rules[2]][1..] == [];
    assert PrintRules([rules[2]]) == PrintRule(rules[2], "");
    assert PrintRules(rules[1..]) == PrintRule(rules[1], PrintRules([rules[2]]));
  }

  lemma ScanLast()
    ensures Scan(Initial, PrintRule(SMUGGLER.rules[2], "")) == OneRuleTokens(TopRule([EdgeItem("n", [], "]")]), [])
  {
    hide Scan;
    var body := WithCall(PlainCall("n", End), End);
    assert Layout.Inside(PlainCall("n", End)) == "" && "" + "]" == "]";
    assert GoodCall(PlainCall("n", End));
    ScanTopRule([], body, [], "");
    ScanNothing();
    assert Items(body) == [EdgeItem("n", [], "]")];
  }

  lemma ThreeRules(a: Rule, b: Rule, c: Rule)
    ensures RuleTokens([a, b, c], []) == OneRuleTokens(a, OneRuleTokens(b, OneRuleTokens(c, [])))
    ensures Replay(EMPTY, [a, b, c]) == Apply(Apply(Apply(EMPTY, a), b), c)
  {
    hide OneRuleTokens, Apply;
    var rules := [a, b, c];
    assert rules[1..] == [b, c] && [b, c][1..] == [c] && [c][1..] == [];
    assert RuleTokens([c], []) == OneRuleTokens(c, []);
    assert RuleTokens([b, c], []) == OneRuleTokens(b, RuleTokens([c], []));
    var s1 := Apply(EMPTY, a);
    var s2 := Apply(s1, b);
    assert Replay(s2, [c]) == Apply(s2, c);
    assert Replay(s1, [b, c]) == Replay(s2, [c]);
  }

  lemma SmugglerState(a: Rule, b: Rule, top: Rule)
    requires a == NodeRule("n", [Attr("a", Quoted("\"x"))])
    requires b == NodeRule("m", [Attr("b", Quoted("\"" + CARRIED))])
    requires top == TopRule([EdgeItem("n", [], "]")])
    ensures var st := Apply(Apply(Apply(EMPTY, a), b), top);
            && st.edges == [EdgeDetails("n", PREFIX + "]", 0, 0)]
            && st.glob == NodeText("n", map["a" := "\"x"]) + NodeText("m", map["b" := "\"" + CARRIED])
  {
    hide NodeText;
    OneAttrMap("a", Quoted("\"x"));
    OneAttrMap("b", Quoted("\"" + CARRIED));
    assert "" + NodeText("n", map["a" := "\"x"]) == NodeText("n", map["a" := "\"x"]);
    assert top.items[1..] == [];
    assert ItemEdges(top.items) == [EdgeDetails("n", PREFIX + "]", 0, 0)];
  }

  lemma SmugglerGlob()
    ensures NodeText("n", map["a" := "\"x"]) + NodeText("m", map["b" := "\"" + CARRIED]) + (PREFIX + "]") == SENT
  {
    OneEntry("n", "a", "\"x");
    OneEntry("m", "b", "\"" + CARRIED);
  }

  const SP: Gap := [Blank(' ')]
  const NL: Gap := [Blank('\n')]
  const INDENT: Gap := [Blank('\n'), Blank(' '), Blank(' ')]
  const BETWEEN: Gap := [Blank('\n'), Blank('\n'), Blank(' '), Blank(' '), Blank(' '), Blank(' ')]
  const LONG: string := "\"x,\n]\nm [\n  b = \""
  const KV: Body := WithAttr(PlainAttr("k", "v"), End)

  /** The same text as another document. */
  const ARRIVED: Document :=
    Document([], [NodeL("n", SP, INDENT, [AttrL("a", SP, SP, LONG, [], [])], []),
                  TopL([], WithCall(PlainCall("n", KV), End), []),
                  NodeL("p", [], [], [AttrL("k", [], [], "v", [], NL)], BETWEEN),
                  TopL([], End, [])])

  lemma Gapped(rest: string)
    ensures GapText(SP, rest) == " " + rest
    ensures GapText(NL, rest) == "\n" + rest
  {
    OneBlank(' ', rest);
    OneBlank('\n', rest);
  }

  lemma GappedMore(g: Gap, c: char, more: string, rest: string)
    requires g != [] && g[0] == Blank(c) && GapText(g[1..], rest) == more + rest
    ensures GapText(g, rest) == [c] + more + rest
  {
    Associate([c], more, rest);
  }

  lemma GappedWide(rest: string)
    ensures GapText(INDENT, rest) == "\n  " + rest
    ensures GapText(BETWEEN, rest) == "\n\n    " + rest
  {
    var s1 := SP;
    var s2, s3, s4 := [Blank(' ')] + s1, [Blank(' '), Blank(' ')] + s1, [Blank(' '), Blank(' '), Blank(' ')] + s1;
    var n4 := [Blank('\n')] + s4;
    Gapped(rest);
    assert s2[1..] == s1 && s3[1..] == s2 && s4[1..] == s3 && n4[1..] == s4;
    GappedMore(s2, ' ', " ", rest);
    GappedMore(s3, ' ', "  ", rest);
    GappedMore(s4, ' ', "   ", rest);
    GappedMore(n4, '\n', "    ", rest);
    assert INDENT[1..] == s2 && BETWEEN[1..] == n4;
    GappedMore(INDENT, '\n', "  ", rest);
    GappedMore(BETWEEN, '\n', "\n    ", rest);
  }

  lemma SpacedDefinition(name: string, key: string, val: string, rest: string)
    ensures PrintRule(NodeL(name, SP, INDENT, [AttrL(key, SP, SP, val, [], [])], []), rest)
            == name + (" " + ("[" + ("\n  " + (key + (" " + ("=" + (" " + (val + ("," + ("]" + rest))))))))))
  {
    var attrs := [AttrL(key, SP, SP, val, [], [])];
    var r0 := "]" + rest;
    var r1 := val + ("," + r0);
    var r2 := "=" + (" " + r1);
    var r3 := key + (" " + r2);
    Gapped(r1);
    Gapped(r2);
    GappedWide(r3);
    Gapped("[" + ("\n  " + r3));
    hide GapText;
    OneAttrText(attrs[0], r0);
    EmptyGaps(rest);
    EmptyGaps(r0);
    EmptyGaps("," + r0);
  }

  lemma EmptyGaps(rest: string)
    ensures GapText([], rest) == rest
  {
  }

  lemma OneAttrText(a: AttrL, rest: string)
    ensures PrintAttrs([a], rest) == PrintAttrL(a, rest)
  {
    assert [a][1..] == [];
  }

  lemma ArrivedFirst(rest: string)
    ensures PrintRule(ARRIVED.rules[0], rest) == "n [\n  a = " + LONG + ",]" + rest
  {
    SpacedDefinition("n", "a", LONG, rest);
    FirstPieces(LONG, rest);
  }

  lemma FirstPieces(val: string, rest: string)
    ensures "n" + (" " + ("[" + ("\n  " + ("a" + (" " + ("=" + (" " + (val + ("," + ("]" + rest))))))))))
            == "n [\n  a = " + val + ",]" + rest
  {
  }

  lemma ArrivedThird(rest: string)
    ensures PrintRule(ARRIVED.rules[2], rest) == "p[k=v,\n]\n\n    " + rest
  {
    var a := AttrL("k", [], [], "v", [], NL);
    var r := "]" + ("\n\n    " + rest);
    GappedWide(rest);
    Gapped(r);
    OneAttrText(a, r);
    EmptyGaps("=" + ("v" + ("," + ("\n" + r))));
    EmptyGaps("v" + ("," + ("\n" + r)));
    EmptyGaps("," + ("\n" + r));
    EmptyGaps("[" + ("k" + ("=" + ("v" + ("," + ("\n" + r))))));
    EmptyGaps("k" + ("=" + ("v" + ("," + ("\n" + r)))));
    hide GapText;
    ThirdPieces(rest);
  }

  lemma ThirdPieces(rest: string)
    ensures "p" + ("[" + ("k" + ("=" + ("v" + ("," + ("\n" + ("]" + ("\n\n    " + rest))))))))
            == "p[k=v,\n]\n\n    " + rest
  {
  }

  lemma ArrivedCall(rest: string)
    ensures PrintRule(ARRIVED.rules[1], rest) == "[->n[k=v,]]" + rest
    ensures Layout.Inside(PlainCall("n", KV)) == "k=v,"
  {
    assert Layout.Inside(PlainCall("n", KV)) == "k=v,";
    var r := "]" + rest;
    assert PrintBody(WithCall(PlainCall("n", KV), End), r) == PrintCall(PlainCall("n", KV), PrintBody(End, r));
    assert PrintCall(PlainCall("n", KV), r) == PrintHeader(PlainCall("n", KV), "[" + "k=v," + "]" + r);
  }

  lemma ArrivedLast()
    ensures PrintRule(ARRIVED.rules[3], "") == "[]"
  {
  }

  lemma FirstLiteral()
    ensures "n" + " [\n" + ("  " + "a" + " = " + "\"x" + ",\n") + "]\n" == "n [\n  a = " + "\"x,\n]\n"
  {
  }

  lemma SecondLiteral()
    ensures "m" + " [\n" + ("  " + "b" + " = " + ("\"" + CARRIED) + ",\n") + "]\n"
            == "m [\n  b = \"" + ",]" + "[->n[k=v,]]" + "p[k=v,\n]\n"
  {
  }

  lemma OtherLiterals()
    ensures LONG == "\"x,\n]\n" + "m [\n  b = \""
    ensures "p[k=v,\n]\n\n    " + "[]" == "p[k=v,\n]\n" + (PREFIX + "]")
  {
  }

  lemma Shift(a: string, l1: string, l2: string, c: string, d: string, e: string, z: string)
    ensures a + (l1 + l2) + c + (d + (e + z)) == (a + l1) + (l2 + c + d + e) + z
  {
  }

  lemma ArrivedLiteral()
    ensures "n [\n  a = " + LONG + ",]" + ("[->n[k=v,]]" + ("p[k=v,\n]\n\n    " + "[]")) == SENT
  {
    FirstLiteral();
    SecondLiteral();
    OtherLiterals();
    Shift("n [\n  a = ", "\"x,\n]\n", "m [\n  b = \"", ",]", "[->n[k=v,]]", "p[k=v,\n]\n", PREFIX + "]");
  }

  lemma ArrivedText()
    ensures Print(ARRIVED) == SENT
  {
    hide PrintRule;
    var rules := ARRIVED.rules;
    ArrivedLast();
    ArrivedThird("[]");
    ArrivedCall("p[k=v,\n]\n\n    " + "[]");
    ArrivedFirst("[->n[k=v,]]" + ("p[k=v,\n]\n\n    " + "[]"));
    ArrivedLiteral();
    FourPrinted(rules[0], rules[1], rules[2], rules[3]);
  }

  lemma FourPrinted(a: RuleL, b: RuleL, c: RuleL, d: RuleL)
    ensures PrintRules([a, b, c, d]) == PrintRule(a, PrintRule(b, PrintRule(c, PrintRule(d, ""))))
  {
    hide PrintRule;
    var rules := [a, b, c, d];
    assert rules[1..] == [b, c, d] && [b, c, d][1..] == [c, d] && [c, d][1..] == [d] && [d][1..] == [];
    assert PrintRules([d]) == PrintRule(d, PrintRules([]));
    assert PrintRules([c, d]) == PrintRule(c, PrintRules([d]));
    assert PrintRules([b, c, d]) == PrintRule(b, PrintRules([c, d]));
  }

  lemma ArrivedIsGood()
    ensures GoodDocument(ARRIVED) && VerbatimRules(ARRIVED.rules)
  {
    ArrivedFirstIsGood();
    ArrivedThirdIsGood();
    KvIsGood();
    hide GoodAttrL, GoodAttrLs, GoodBody, Verbatim, VerbatimAttrs;
    var rules := ARRIVED.rules;
    assert GoodRuleL(rules[0]) && VerbatimRule(rules[0]);
    assert GoodRuleL(rules[1]) && VerbatimRule(rules[1]);
    assert GoodRuleL(rules[2]) && VerbatimRule(rules[2]);
    EndIsGood();
    assert GoodRuleL(rules[3]) && VerbatimRule(rules[3]);
  }

  lemma EndIsGood()
    ensures GoodBody(End) && Verbatim(End)
  {
  }

  lemma ArrivedFirstIsGood()
    ensures GoodAttrLs([AttrL("a", SP, SP, LONG, [], [])]) && VerbatimAttrs([AttrL("a", SP, SP, LONG, [], [])])
  {
    LongIsGood();
    hide GoodAttrL;
    var attrs := [AttrL("a", SP, SP, LONG, [], [])];
    assert attrs[1..] == [];
  }

  lemma ArrivedThirdIsGood()
    ensures GoodAttrLs([AttrL("k", [], [], "v", [], NL)]) && VerbatimAttrs([AttrL("k", [], [], "v", [], NL)])
  {
    assert GoodAttrL(AttrL("k", [], [], "v", [], NL));
    hide GoodAttrL;
    var attrs := [AttrL("k", [], [], "v", [], NL)];
    assert attrs[1..] == [];
  }

  lemma LongIsGood()
    ensures GoodAttrL(AttrL("a", SP, SP, LONG, [], [])) && NulFree(LONG)
  {
    assert IsQuoted(LONG);
  }

  lemma KvIsGood()
    ensures GoodBody(WithCall(PlainCall("n", KV), End)) && Verbatim(WithCall(PlainCall("n", KV), End))
  {
    ArrivedCall("");
    PlainIsIntact("k=v,");
    assert GoodAttrL(PlainAttr("k", "v"));
    assert GoodCall(PlainCall("n", KV));
  }

  /** The call that was in the string, as the receiver finds it. */
  lemma ArrivedEdges()
    ensures Instance(SENT).Some?
    ensures Instance(SENT).value.edges == [EdgeDetails("n", PREFIX + "k=v,]", 0, 0)]
  {
    hide Print, Scan, Parse, GoodDocument, VerbatimRules;
    ArrivedText();
    ArrivedIsGood();
    PrintThenParse(ARRIVED);
    ArrivedRuleEdges();
    ReplayEdges(EMPTY, RulesOf(ARRIVED.rules));
  }

  lemma ArrivedRuleEdges()
    ensures GoodRuleLs(ARRIVED.rules)
    ensures [] + RuleEdges(RulesOf(ARRIVED.rules)) == [EdgeDetails("n", PREFIX + "k=v,]", 0, 0)]
  {
    ArrivedIsGood();
    ArrivedCall("");
    var r := ARRIVED.rules;
    FourEdges(r[0], r[1], r[2], r[3]);
    var items := [EdgeItem("n", [], "k=v," + "]")];
    assert Items(WithCall(PlainCall("n", KV), End)) == items;
    assert items[1..] == [];
    assert "k=v," + "]" == "k=v,]";
    assert ItemEdges(items) == [EdgeDetails("n", PREFIX + "k=v,]", 0, 0)];
  }

  lemma FourEdges(a: RuleL, b: RuleL, c: RuleL, d: RuleL)
    requires GoodRuleLs([a, b, c, d])
    ensures GoodRuleL(a) && GoodRuleL(b) && GoodRuleL(c) && GoodRuleL(d)
    ensures RuleEdges(RulesOf([a, b, c, d]))
            == EdgesOfRule(RuleOf(a))
               + (EdgesOfRule(RuleOf(b)) + (EdgesOfRule(RuleOf(c)) + (EdgesOfRule(RuleOf(d)) + [])))
  {
    hide GoodRuleL, RuleOf, EdgesOfRule;
    var rules := [a, b, c, d];
    assert rules[0] == a && rules[1] == b && rules[2] == c && rules[3] == d;
    assert rules[1..] == [b, c, d] && [b, c, d][1..] == [c, d] && [c, d][1..] == [d] && [d][1..] == [];
    var w, x, y, z := RuleOf(a), RuleOf(b), RuleOf(c), RuleOf(d);
    assert RulesOf([d]) == [z] + RulesOf([]);
    assert RulesOf([c, d]) == [y] + RulesOf([d]);
    assert RulesOf([b, c, d]) == [x] + RulesOf([c, d]);
    assert RulesOf(rules) == [w, x, y, z];
    assert [w, x, y, z][1..] == [x, y, z] && [x, y, z][1..] == [y, z] && [y, z][1..] == [z] && [z][1..] == [];
    assert RuleEdges([z]) == EdgesOfRule(z) + RuleEdges([]);
    assert RuleEdges([y, z]) == EdgesOfRule(y) + RuleEdges([z]);
    assert RuleEdges([x, y, z]) == EdgesOfRule(x) + RuleEdges([y, z]);
  }

  /** With a string that was cut off, a payload can carry a call that nobody asked for, and a longer one. */
  lemma GlobCanCarryCalls()
    ensures var text := Print(SMUGGLER);
            && Instance(text).Some? && !DefinitionsClosed(text)
            && exists e, child ::
                 && e in Instance(text).value.edges
                 && Instance(Payload(Instance(text).value, e)).Some?
                 && child in Instance(Payload(Instance(text).value, e)).value.edges
                 && |child.blob| > |e.blob|
  {
    hide Print, Scan, Parse, Payload, DefinitionsClosed;
    var text := Print(SMUGGLER);
    SmugglerInstance();
    ArrivedEdges();
    var e, child := EdgeDetails("n", PREFIX + "]", 0, 0), EdgeDetails("n", PREFIX + "k=v,]", 0, 0);
    assert e in Instance(text).value.edges && child in Instance(SENT).value.edges;
    assert |child.blob| > |e.blob|;
    if DefinitionsClosed(text) {
      ChildBlobsAreShorter(text, e, child);
    }
  }

  // ---------- a NUL that does no harm ----------

  /** a=1,a="x\0", */
  const SHADOWED: Body := WithAttr(PlainAttr("a", "1"), WithAttr(PlainAttr("a", OPENS), End))

  lemma ShadowedIsGood()
    ensures GoodBody(SHADOWED) && !Verbatim(SHADOWED)
    ensures ScannedValue("1") == Number(1) && ReadValue("1") == Number(1)
  {
    CutStringIsOpen("x", "");
    assert '\0' in OPENS by {
      assert OPENS[2] == '\0';
    }
    assert "1"[..0] == "" && NumeralValue("1") == 10 * NumeralValue("") + DigitValue('1');
    assert CString("1") == "1";
    hide CutString;
    assert GoodAttrL(PlainAttr("a", "1"));
    assert GoodAttrL(PlainAttr("a", OPENS));
  }

  lemma FirstAttrCounts(key: string, first: Value, second: Value)
    ensures AttrMap([Attr(key, first), Attr(key, second)]) == map[key := ValueText(first)]
  {
    OneAttrMap(key, first);
    AttrMapSnoc([Attr(key, first)], Attr(key, second));
    assert [Attr(key, first)] + [Attr(key, second)] == [Attr(key, first), Attr(key, second)];
  }

  lemma ScanShadowed()
    ensures Parse(Scan(Initial, Print(One(SHADOWED))))
            == Some([TopRule([AttrItem(Attr("a", Number(1))), AttrItem(Attr("a", Quoted("\"x")))])])
  {
    hide Scan, Print, Parse, CutString, IsValueText, ScannedValue, RuleTokens;
    var one, two := Attr("a", Number(1)), Attr("a", Quoted("\"x"));
    ShadowedIsGood();
    CutStringIsOpen("x", "");
    assert "\"" + "x" == "\"x";
    var more := PrintAttrL(PlainAttr("a", OPENS), "]");
    ShadowedText();
    ScanPunctuation(Initial, '[', PrintAttrL(PlainAttr("a", "1"), more));
    ScanAttr("a", [], [], "1", [], [], more);
    ScanAttr("a", [], [], OPENS, [], [], "]");
    ScanEnd();
    TwoAttrItems(one, two);
    OneTokens(TopRule([AttrItem(one), AttrItem(two)]));
    ParseExact([OBRACKET] + AttrTokens([one], AttrTokens([two], [CBRACKET])),
               [TopRule([AttrItem(one), AttrItem(two)])]);
  }

  lemma ShadowedText()
    ensures Print(One(SHADOWED)) == ['['] + PrintAttrL(PlainAttr("a", "1"), PrintAttrL(PlainAttr("a", OPENS), "]"))
  {
    hide PrintAttrL, CutString;
    OnePrinted(One(SHADOWED).rules[0]);
    var r := [']'] + GapText([], "");
    assert r == "]";
    var last := WithAttr(PlainAttr("a", OPENS), End);
    assert PrintBody(last, r) == PrintAttrL(PlainAttr("a", OPENS), PrintBody(End, r));
    assert PrintBody(SHADOWED, r) == PrintAttrL(PlainAttr("a", "1"), PrintBody(last, r));
  }

  lemma TwoAttrItems(one: Attr, two: Attr)
    ensures OneRuleTokens(TopRule([AttrItem(one), AttrItem(two)]), [])
            == [OBRACKET] + AttrTokens([one], AttrTokens([two], [CBRACKET]))
  {
    hide AttrTokens;
    var items := [AttrItem(one), AttrItem(two)];
    assert items[1..] == [AttrItem(two)] && [AttrItem(two)][1..] == [];
    assert [CBRACKET] + [] == [CBRACKET];
    assert ItemTokens([AttrItem(two)], [CBRACKET]) == AttrTokens([two], ItemTokens([], [CBRACKET]));
    assert ItemTokens(items, [CBRACKET]) == AttrTokens([one], ItemTokens([AttrItem(two)], [CBRACKET]));
  }

  /** [a=1,a="x\0",] does not come back, and is still understood as it was meant: the first value counts. */
  lemma ShadowedNulIsHarmless()
    ensures var doc := One(SHADOWED);
            && GoodDocument(doc) && !AllVerbatimRules(doc.rules)
            && HopTree(Print(doc)) == Meaning(doc)
  {
    hide Scan, Print, Parse, CutString, AttrMap;
    var one, two, written := Attr("a", Number(1)), Attr("a", Quoted("\"x")), Attr("a", Quoted(OPENS));
    var rule := TopRule([AttrItem(one), AttrItem(two)]);
    ShadowedIsGood();
    OneIsGood(SHADOWED);
    NotVerbatim(SHADOWED);
    ScanShadowed();
    OneReplay(rule);
    assert rule.items[1..] == [AttrItem(two)] && [AttrItem(two)][1..] == [];
    assert ItemAttrs(rule.items) == [one, two] && ItemEdges(rule.items) == [];
    FirstAttrCounts("a", Number(1), Quoted("\"x"));
    FirstAttrCounts("a", Number(1), Quoted(OPENS));
    OneNodes(SHADOWED);
    OneCalls(SHADOWED, map[]);
    ShadowedAttrs();
  }

  lemma ShadowedAttrs()
    ensures GoodBody(SHADOWED) && SubcallsOf(SHADOWED, map[]) == []
    ensures BodyAttrs(SHADOWED) == [Attr("a", Number(1)), Attr("a", Quoted(OPENS))]
  {
    ShadowedIsGood();
    hide CutString;
    var last := WithAttr(PlainAttr("a", OPENS), End);
    CutStringIsOpen("x", "");
    assert BodyAttrs(last) == [AttrOf(PlainAttr("a", OPENS))];
  }
}
