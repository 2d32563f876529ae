/**
 Peeling a request one text level per hop: every instance scans and parses what it receives and
 sends `node_glob_ + blob` on (src/fidi_app_driver.cc:168-197, src/fidi_lint_driver.cc:75-92).
 */
module Hops {
  import opened Lexical
  import opened Scanner
  import opened ScanSteps
  import opened Grammar
  import opened Actions
  import opened NodeGlob
  import opened Layout
  import opened RoundTrip
  import opened Sequences

  /** A request with everything nested in it, as the receiving instances understand it. */
  datatype Tree = Refused | Request(nodes: map<string, Attributes>, attrs: Attributes, calls: seq<Subcall>)
  datatype Subcall = Subcall(dest: string, repeat: nat, sequence: nat, request: Tree)

  // ---------- the text that is left gets smaller with each hop ----------

  function BlobTotal(ts: seq<Token>): nat {
    if ts == [] then 0
    else (if ts[0].BLOB? then |ts[0].blob| + 1 else 0) + BlobTotal(ts[1..])
  }

  /** How much text the calls of `text` carry. */
  function Weight(text: string): nat {
    BlobTotal(Scan(Initial, text))
  }

  lemma {:induction false} ScanTotal(m: Mode, s: string)
    requires m != EdgeAttr
    ensures BlobTotal(Scan(m, s)) <= |s|
    decreases |s|
  {
    if s != "" {
      var r := Next(m, s);
      ScanTotal(r.mode, s[r.length..]);
      var rest := Scan(r.mode, s[r.length..]);
      if r.token.Some? {
        assert ([r.token.value] + rest)[1..] == rest;
      }
    }
  }

  lemma {:induction false} TotalAppend(a: seq<Token>, b: seq<Token>)
    ensures BlobTotal(a + b) == BlobTotal(a) + BlobTotal(b)
  {
    if a == [] {
      assert a + b == b;
    } else {
      assert (a + b)[1..] == a[1..] + b;
      TotalAppend(a[1..], b);
    }
  }

  lemma TotalPlain(a: seq<Token>, b: seq<Token>)
    requires forall t | t in a :: !t.BLOB?
    ensures BlobTotal(a + b) == BlobTotal(b)
  {
    TotalAppend(a, b);
    NoBlobs(a);
  }

  lemma NoBlobs(a: seq<Token>)
    requires forall t | t in a :: !t.BLOB?
    ensures BlobTotal(a) == 0
  {
  }

  lemma {:induction false} AttrTotal(attrs: seq<Attr>, rest: seq<Token>)
    ensures BlobTotal(AttrTokens(attrs, rest)) == BlobTotal(rest)
  {
    if attrs != [] {
      var tail := AttrTokens(attrs[1..], rest);
      TotalPlain([IDENT(attrs[0].key), EQUALS, ValueToken(attrs[0].val), COMMA], tail);
      AttrTotal(attrs[1..], rest);
    }
  }

  lemma {:induction false} OptTotal(opts: seq<EdgeOpt>, rest: seq<Token>)
    ensures BlobTotal(OptTokens(opts, rest)) == BlobTotal(rest)
  {
    if opts != [] {
      var tail := OptTokens(opts[1..], rest);
      TotalPlain([if opts[0].Repeat? then REPEAT else SEQUENCE, EQUALS, NUMBER(opts[0].n)], tail);
      OptTotal(opts[1..], rest);
    }
  }

  lemma EdgeTotal(dest: string, opts: seq<EdgeOpt>, blob: string, rest: seq<Token>)
    ensures BlobTotal(EdgeTokens(dest, opts, blob, rest)) == |blob| + 1 + BlobTotal(rest)
  {
    TotalPlain([DASH, ARROW, IDENT(dest)], OptTokens(opts, [BLOB(blob)] + rest));
    OptTotal(opts, [BLOB(blob)] + rest);
    assert ([BLOB(blob)] + rest)[1..] == rest;
  }

  /** The blob as it was cut out, before `HandleEdge` put the bracket back. */
  function RawBlob(e: EdgeDetails): string {
    if |e.blob| >= |PREFIX| then e.blob[|PREFIX|..] else ""
  }

  predicate FitsIn(e: EdgeDetails, total: nat) {
    e.blob == PREFIX + RawBlob(e) && |RawBlob(e)| < total
  }

  predicate AllFit(edges: seq<EdgeDetails>, total: nat) {
    forall i | 0 <= i < |edges| :: FitsIn(edges[i], total)
  }

  lemma {:induction false} ItemEdgesFit(items: seq<Item>, rest: seq<Token>)
    ensures AllFit(ItemEdges(items), BlobTotal(ItemTokens(items, rest)))
    ensures BlobTotal(rest) <= BlobTotal(ItemTokens(items, rest))
  {
    if items != [] {
      var tail := ItemTokens(items[1..], rest);
      ItemEdgesFit(items[1..], rest);
      match items[0]
      case AttrItem(attr) => AttrTotal([attr], tail);
      case EdgeItem(dest, opts, blob) =>
        EdgeTotal(dest, opts, blob, tail);
        assert RawBlob(Edge(items[0])) == blob;
    }
  }

  lemma {:induction false} RuleEdgesFit(st: State, rules: seq<Rule>, total: nat)
    requires AllFit(st.edges, total) && BlobTotal(RuleTokens(rules, [])) <= total
    ensures AllFit(Replay(st, rules).edges, total)
    decreases |rules|
  {
    if rules != [] {
      var tail := RuleTokens(rules[1..], []);
      assert ([CBRACKET] + tail)[1..] == tail;
      match rules[0] {
        case NodeRule(name, attrs) =>
          TotalPlain([IDENT(name), OBRACKET], AttrTokens(attrs, [CBRACKET] + tail));
          AttrTotal(attrs, [CBRACKET] + tail);
        case TopRule(items) =>
          TotalPlain([OBRACKET], ItemTokens(items, [CBRACKET] + tail));
          ItemEdgesFit(items, [CBRACKET] + tail);
      }
      RuleEdgesFit(Apply(st, rules[0]), rules[1..], total);
    }
  }

  lemma EdgesFit(text: string)
    requires Instance(text).Some?
    ensures AllFit(Instance(text).value.edges, Weight(text))
  {
    var rules := Parse(Scan(Initial, text)).value;
    RuleEdgesFit(EMPTY, rules, Weight(text));
  }

  function EdgesOfRule(rule: Rule): seq<EdgeDetails> {
    if rule.TopRule? then ItemEdges(rule.items) else []
  }

  function RuleEdges(rules: seq<Rule>): seq<EdgeDetails> {
    if rules == [] then [] else EdgesOfRule(rules[0]) + RuleEdges(rules[1..])
  }

  lemma OneRuleEdges(st: State, rule: Rule)
    ensures Apply(st, rule).edges == st.edges + EdgesOfRule(rule)
  {
    assert st.edges + [] == st.edges;
  }

  lemma {:induction false} ReplayEdges(st: State, rules: seq<Rule>)
    ensures Replay(st, rules).edges == st.edges + RuleEdges(rules)
    decreases |rules|
  {
    if rules == [] {
      assert st.edges + [] == st.edges;
    } else {
      OneRuleEdges(st, rules[0]);
      ReplayEdges(Apply(st, rules[0]), rules[1..]);
      Associate(st.edges, EdgesOfRule(rules[0]), RuleEdges(rules[1..]));
    }
  }

  /** What an instance sends for an edge. */
  function Payload(st: State, e: EdgeDetails): string {
    st.glob + e.blob
  }

  // ---------- what is sent has no NUL ----------

  predicate NulFreeBlobs(edges: seq<EdgeDetails>) {
    forall i | 0 <= i < |edges| :: NulFree(edges[i].blob)
  }

  lemma {:induction false} ItemBlobsAreNulFree(items: seq<Item>)
    requires forall i | 0 <= i < |items| :: GoodItem(items[i])
    ensures NulFreeBlobs(ItemEdges(items))
  {
    if items != [] {
      assert forall i | 0 <= i < |items[1..]| :: items[1..][i] == items[i + 1];
      ItemBlobsAreNulFree(items[1..]);
      if items[0].EdgeItem? {
        assert GoodItem(items[0]);
        NulFreeAppend(PREFIX, items[0].blob);
      }
    }
  }

  lemma {:induction false} RuleBlobsAreNulFree(rules: seq<Rule>)
    requires GoodRules(rules, false)
    ensures NulFreeBlobs(RuleEdges(rules))
  {
    if rules != [] {
      assert forall i | 0 <= i < |rules[1..]| :: rules[1..][i] == rules[i + 1];
      RuleBlobsAreNulFree(rules[1..]);
      assert GoodRule(rules[0], false);
      if rules[0].TopRule? {
        ItemBlobsAreNulFree(rules[0].items);
      }
    }
  }

  /** Whatever was in the input, the next instance gets a text without NUL. */
  lemma PayloadIsNulFree(text: string, e: EdgeDetails)
    requires Instance(text).Some? && e in Instance(text).value.edges
    ensures NulFree(Payload(Instance(text).value, e))
  {
    var rules := Parse(Scan(Initial, text)).value;
    AcceptedRulesAreGood(text, false);
    GlobIsText(EMPTY, rules);
    assert Instance(text).value.glob == GlobText(rules);
    GlobIsNulFree(rules);
    ReplayEdges(EMPTY, rules);
    RuleBlobsAreNulFree(rules);
    hide Replay, RuleEdges, GlobText;
    assert [] + RuleEdges(rules) == RuleEdges(rules);
    var i :| 0 <= i < |Instance(text).value.edges| && Instance(text).value.edges[i] == e;
    assert RuleEdges(rules)[i] == e;
    NulFreeAppend(GlobText(rules), e.blob);
  }

  lemma {:induction false} NodeRulesTotal(rules: seq<Rule>, rest: seq<Token>)
    requires GoodRules(rules, false)
    ensures BlobTotal(RuleTokens(NodeRules(rules), rest)) == BlobTotal(rest)
  {
    if rules != [] {
      NodeRulesTotal(rules[1..], rest);
      if rules[0].NodeRule? {
        GoodAttrsMap(rules[0].attrs, false);
        var rule := NodeRuleOf(rules[0].name, AttrMap(rules[0].attrs));
        assert NodeRules(rules) == [rule] + NodeRules(rules[1..]);
        var tail := RuleTokens(NodeRules(rules[1..]), rest);
        TotalPlain([IDENT(rule.name), OBRACKET], AttrTokens(rule.attrs, [CBRACKET] + tail));
        AttrTotal(rule.attrs, [CBRACKET] + tail);
        assert ([CBRACKET] + tail)[1..] == tail;
      }
    }
  }

  /** Node definitions in front of a payload carry no calls, if none of their strings was cut off. */
  lemma PayloadWeight(text: string, e: EdgeDetails)
    requires Instance(text).Some? && DefinitionsClosed(text) && e in Instance(text).value.edges
    ensures Weight(Payload(Instance(text).value, e)) <= |RawBlob(e)| < Weight(text)
  {
    EdgesFit(text);
    var st, rules := Instance(text).value, Parse(Scan(Initial, text)).value;
    AcceptedRulesAreGood(text, false);
    GlobIsText(EMPTY, rules);
    ScanGlob(rules, e.blob);
    NodeRulesTotal(rules, Scan(Initial, e.blob));
    ScanPrefix(RawBlob(e));
    ScanTotal(Initial, RawBlob(e));
    assert ([OBRACKET] + Scan(Initial, RawBlob(e)))[1..] == Scan(Initial, RawBlob(e));
    assert st.glob == GlobText(rules);
  }

  /**
   Under the same condition a call found in a payload has a strictly shorter blob than the call the
   payload was made for, put-back bracket included.
   */
  lemma ChildBlobsAreShorter(text: string, e: EdgeDetails, child: EdgeDetails)
    requires Instance(text).Some? && DefinitionsClosed(text) && e in Instance(text).value.edges
    requires var payload := Payload(Instance(text).value, e);
             Instance(payload).Some? && child in Instance(payload).value.edges
    ensures |child.blob| < |e.blob|
  {
    PayloadWeight(text, e);
    EdgesFit(text);
    EdgesFit(Payload(Instance(text).value, e));
  }

  function Nuls(text: string): nat {
    if NulFree(text) then 0 else 1
  }

  /** The order in which texts get smaller: first without NUL, then with less in the calls. */
  predicate Smaller(a: string, b: string) {
    Nuls(a) < Nuls(b) || (Nuls(a) == Nuls(b) && Weight(a) < Weight(b))
  }

  /** Recursion over nested requests terminates on every input. */
  lemma PayloadIsSmaller(text: string, e: EdgeDetails)
    requires Instance(text).Some? && e in Instance(text).value.edges
    ensures Smaller(Payload(Instance(text).value, e), text)
  {
    PayloadIsNulFree(text, e);
    if NulFree(text) {
      NulFreeIsClosed(text);
      PayloadWeight(text, e);
    }
  }

  // ---------- the tree that the instances discover together ----------

  /** The request in `text`, each nested request read from the text its receiver gets. */
  function HopTree(text: string): Tree
    decreases Nuls(text), Weight(text), 1, 0
  {
    match Instance(text)
    case None => Refused
    case Some(st) => Request(st.nodes, st.top, HopCalls(text, st.edges))
  }

  function HopCalls(text: string, edges: seq<EdgeDetails>): (r: seq<Subcall>)
    requires Instance(text).Some? && forall e | e in edges :: e in Instance(text).value.edges
    ensures |r| == |edges|
    decreases Nuls(text), Weight(text), 0, |edges|
  {
    if edges == [] then []
    else
      [HopCall(text, edges[0])] + HopCalls(text, edges[1..])
  }

  function HopCall(text: string, e: EdgeDetails): Subcall
    requires Instance(text).Some? && e in Instance(text).value.edges
    decreases Nuls(text), Weight(text), 0, 0
  {
    PayloadIsSmaller(text, e);
    Subcall(e.name, e.repeat, e.sequence, HopTree(Payload(Instance(text).value, e)))
  }

  // ---------- the tree that was written down ----------

  /** The calls of a body, read off the whole nested request at once. */
  function SubcallsOf(b: Body, nodes: map<string, Attributes>): seq<Subcall>
    requires GoodBody(b)
    decreases b
  {
    match b
    case End => []
    case WithAttr(_, more) => SubcallsOf(more, nodes)
    case WithCall(c, more) => [SubcallOf(c, nodes)] + SubcallsOf(more, nodes)
  }

  function SubcallOf(c: Call, nodes: map<string, Attributes>): Subcall
    requires GoodCall(c)
    decreases c
  {
    var pair := EdgePair(OptsOf(c.opts));
    Subcall(c.dest, pair.0, pair.1,
            Request(nodes, AttrMap(BodyAttrs(c.body)), SubcallsOf(c.body, nodes)))
  }

  function BodyAttrs(b: Body): seq<Attr>
    requires GoodBody(b)
  {
    match b
    case End => []
    case WithAttr(a, more) => [AttrOf(a)] + BodyAttrs(more)
    case WithCall(_, more) => BodyAttrs(more)
  }

  /** The calls of all requests in a document. */
  function DocumentCalls(rules: seq<RuleL>, nodes: map<string, Attributes>): seq<Subcall>
    requires GoodRuleLs(rules)
  {
    if rules == [] then []
    else if rules[0].TopL? then SubcallsOf(rules[0].body, nodes) + DocumentCalls(rules[1..], nodes)
    else DocumentCalls(rules[1..], nodes)
  }

  /** The attributes of the last request in a document. */
  function DocumentAttrs(rules: seq<RuleL>): Attributes
    requires GoodRuleLs(rules)
  {
    if rules == [] then map[]
    else
      var last := rules[|rules| - 1];
      if last.TopL? then AttrMap(BodyAttrs(last.body)) else DocumentAttrs(rules[..|rules| - 1])
  }

  function DocumentNodes(rules: seq<RuleL>): map<string, Attributes>
    requires GoodRuleLs(rules)
  {
    Replay(EMPTY, RulesOf(rules)).nodes
  }

  /** Direct interpretation of a document with all its nested requests. */
  function Meaning(doc: Document): Tree
    requires GoodDocument(doc)
  {
    var nodes := DocumentNodes(doc.rules);
    Request(nodes, DocumentAttrs(doc.rules), DocumentCalls(doc.rules, nodes))
  }

  // ---------- the two trees are the same ----------

  lemma {:induction false} ItemAttrsOf(b: Body)
    requires GoodBody(b)
    ensures ItemAttrs(Items(b)) == BodyAttrs(b)
  {
    match b
    case End =>
    case WithAttr(_, more) =>
      ItemAttrsOf(more);
      assert Items(b)[1..] == Items(more);
    case WithCall(_, more) =>
      ItemAttrsOf(more);
      assert Items(b)[1..] == Items(more);
  }

  /** One hop: the receiver knows the same nodes and sees the call's body as its own request. */
  lemma OneHop(text: string, c: Call)
    requires Instance(text).Some? && DefinitionsClosed(text) && GoodCall(c) && Verbatim(c.body)
    ensures var st := Instance(text).value;
            Instance(st.glob + (PREFIX + (Inside(c) + "]")))
            == Some(HandleTop(HandleEdges(NodesOnly(st), ItemEdges(Items(c.body))),
                              AttrMap(BodyAttrs(c.body))))
  {
    var st, rule := Instance(text).value, TopRule(Items(c.body));
    GlobSurvives(text, PREFIX + (Inside(c) + "]"));
    BlobThenParse(c);
    ItemAttrsOf(c.body);
    assert [rule][1..] == [];
    assert Replay(NodesOnly(st), [rule]) == Apply(NodesOnly(st), rule);
  }

  lemma {:induction false} CallIsPeeled(text: string, c: Call)
    requires GoodCall(c) && AllVerbatim(c.body) && Instance(text).Some? && DefinitionsClosed(text)
    requires EdgeOf(c) in Instance(text).value.edges
    ensures HopCall(text, EdgeOf(c)) == SubcallOf(c, Instance(text).value.nodes)
    decreases c, 0
  {
    var st, e := Instance(text).value, EdgeOf(c);
    AllIsVerbatim(c.body);
    OneHop(text, c);
    PayloadIsNulFree(text, e);
    PayloadIsSmaller(text, e);
    var payload := Payload(st, e);
    NulFreeIsClosed(payload);
    assert [] + ItemEdges(Items(c.body)) == ItemEdges(Items(c.body));
    BodyIsPeeled(payload, c.body);
  }

  function EdgeOf(c: Call): EdgeDetails
    requires GoodCall(c)
  {
    Edge(EdgeItem(c.dest, OptsOf(c.opts), Inside(c) + "]"))
  }

  lemma {:induction false} BodyIsPeeled(text: string, b: Body)
    requires GoodBody(b) && AllVerbatim(b) && Instance(text).Some? && DefinitionsClosed(text)
    requires forall e | e in ItemEdges(Items(b)) :: e in Instance(text).value.edges
    ensures HopCalls(text, ItemEdges(Items(b))) == SubcallsOf(b, Instance(text).value.nodes)
    decreases b, 1
  {
    match b
    case End =>
    case WithAttr(_, more) =>
      assert Items(b)[1..] == Items(more);
      BodyIsPeeled(text, more);
    case WithCall(c, more) =>
      assert Items(b)[1..] == Items(more);
      var edges := ItemEdges(Items(b));
      assert edges == [EdgeOf(c)] + ItemEdges(Items(more));
      assert edges[1..] == ItemEdges(Items(more));
      assert edges[0] in edges;
      assert forall e | e in edges[1..] :: e in edges;
      CallIsPeeled(text, c);
      BodyIsPeeled(text, more);
  }

  ghost predicate AllQueued(text: string, edges: seq<EdgeDetails>) {
    Instance(text).Some? && forall e | e in edges :: e in Instance(text).value.edges
  }

  lemma QueuedAppend(text: string, a: seq<EdgeDetails>, b: seq<EdgeDetails>)
    ensures AllQueued(text, a + b) <==> AllQueued(text, a) && AllQueued(text, b)
  {
    assert forall e :: e in a + b <==> e in a || e in b;
  }

  lemma HopCallsHead(text: string, edges: seq<EdgeDetails>)
    requires AllQueued(text, edges) && edges != []
    ensures AllQueued(text, edges[1..])
    ensures HopCalls(text, edges) == [HopCall(text, edges[0])] + HopCalls(text, edges[1..])
  {
  }

  lemma {:induction false} HopCallsAppend(text: string, a: seq<EdgeDetails>, b: seq<EdgeDetails>)
    requires AllQueued(text, a) && AllQueued(text, b) && AllQueued(text, a + b)
    ensures HopCalls(text, a + b) == HopCalls(text, a) + HopCalls(text, b)
  {
    if a == [] {
      assert a + b == b;
    } else {
      Tail(a, b);
      QueuedAppend(text, a[1..], b);
      HopCallsHead(text, a);
      HopCallsHead(text, a + b);
      HopCallsAppend(text, a[1..], b);
      Associate([HopCall(text, a[0])], HopCalls(text, a[1..]), HopCalls(text, b));
    }
  }

  lemma {:induction false} RulesArePeeled(text: string, rules: seq<RuleL>)
    requires GoodRuleLs(rules) && AllVerbatimRules(rules)
    requires DefinitionsClosed(text) && AllQueued(text, RuleEdges(RulesOf(rules)))
    ensures HopCalls(text, RuleEdges(RulesOf(rules))) == DocumentCalls(rules, Instance(text).value.nodes)
  {
    if rules != [] {
      var first, more := EdgesOfRule(RuleOf(rules[0])), RuleEdges(RulesOf(rules[1..]));
      Cons(RuleOf(rules[0]), RulesOf(rules[1..]));
      QueuedAppend(text, first, more);
      RulesArePeeled(text, rules[1..]);
      HopCallsAppend(text, first, more);
      if rules[0].TopL? {
        BodyIsPeeled(text, rules[0].body);
      } else {
        assert [] + DocumentCalls(rules[1..], Instance(text).value.nodes)
            == DocumentCalls(rules[1..], Instance(text).value.nodes);
      }
    }
  }

  lemma {:induction false} RulesOfAppend(a: seq<RuleL>, r: RuleL)
    requires GoodRuleLs(a + [r])
    ensures GoodRuleLs(a) && GoodRuleL(r)
    ensures RulesOf(a + [r]) == RulesOf(a) + [RuleOf(r)]
  {
    assert forall i | 0 <= i < |a| :: (a + [r])[i] == a[i];
    assert (a + [r])[|a|] == r;
    if a == [] {
      assert a + [r] == [r] && [r][1..] == [];
    } else {
      assert (a + [r])[1..] == a[1..] + [r];
      RulesOfAppend(a[1..], r);
    }
  }

  lemma {:induction false} DocumentTop(rules: seq<RuleL>)
    requires GoodRuleLs(rules)
    ensures Replay(EMPTY, RulesOf(rules)).top == DocumentAttrs(rules)
  {
    if rules != [] {
      var n := |rules| - 1;
      assert rules == rules[..n] + [rules[n]];
      RulesOfAppend(rules[..n], rules[n]);
      DocumentTop(rules[..n]);
      ReplayAppend(EMPTY, RulesOf(rules[..n]), [RuleOf(rules[n])]);
      assert [RuleOf(rules[n])][1..] == [];
      if rules[n].TopL? {
        ItemAttrsOf(rules[n].body);
      }
    }
  }

  lemma {:induction false} WrittenAttrsAreGood(attrs: seq<AttrL>)
    requires GoodAttrLs(attrs) && VerbatimAttrs(attrs)
    ensures GoodAttrs(AttrsOf(attrs), true)
  {
    if attrs != [] {
      WrittenAttrsAreGood(attrs[1..]);
      Cons(AttrOf(attrs[0]), AttrsOf(attrs[1..]));
      assert GoodAttr(AttrOf(attrs[0]), true);
    }
  }

  /** What is written without NUL is printed with all its quotes. */
  lemma {:induction false} WrittenIsClosed(rules: seq<RuleL>)
    requires GoodRuleLs(rules) && VerbatimRules(rules)
    ensures ClosedRules(RulesOf(rules))
  {
    if rules != [] {
      assert forall i | 0 <= i < |rules[1..]| :: rules[1..][i] == rules[i + 1];
      WrittenIsClosed(rules[1..]);
      assert VerbatimRule(rules[0]);
      if rules[0].NodeL? {
        WrittenAttrsAreGood(rules[0].attrs);
        GoodAttrsMap(AttrsOf(rules[0].attrs), true);
      }
    }
  }

  /**
   Peeling preserves meaning: for every well-formed document, in every layout, the instances that
   scan, parse and forward one level each discover exactly the tree that was written down.
   */
  lemma HopsRebuildTheTree(doc: Document)
    requires SoundDocument(doc)
    ensures HopTree(Print(doc)) == Meaning(doc)
  {
    var text, rules := Print(doc), RulesOf(doc.rules);
    PrintThenParse(doc);
    WrittenIsClosed(doc.rules);
    ReplayEdges(EMPTY, rules);
    assert [] + RuleEdges(rules) == RuleEdges(rules);
    RulesArePeeled(text, doc.rules);
    DocumentTop(doc.rules);
  }
}
