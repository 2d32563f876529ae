/** What the linter draws for the request of `Example`, line by line. */
module LintExample {
  import opened Lexical
  import opened Grammar
  import opened Ordered
  import opened Actions
  import opened NodeGlob
  import opened Layout
  import opened RoundTrip
  import opened Hops
  import opened Fleet
  import opened Sanity
  import opened Accepted
  import opened Labels
  import opened LintWalk
  import opened Example

  // ---------- the nested requests ----------

  const EARLY_SEEN: State := State(map[], NODES, GLOB, {}, [])
  const LATE_SEEN: State := State(map["response" := "404"], NODES, GLOB, {}, [])

  lemma TextIsClosed()
    ensures DefinitionsClosed(TEXT)
  {
    hide Print, Scanner.Scan, Parse, SoundDocument, GoodDocument, VerbatimRules, ClosedRules;
    TextIsPrinted();
    DocIsSound();
    SoundIsVerbatim(DOC);
    PrintThenParse(DOC);
    RulesAre();
    WrittenIsClosed(DOC.rules);
  }

  lemma PayloadsAre()
    ensures Payload(PARSED, EARLY_EDGE) == GLOB + (PREFIX + ("" + "]"))
    ensures Payload(PARSED, LATE_EDGE) == GLOB + (PREFIX + (" response = 404, " + "]"))
  {
    assert PREFIX + ("" + "]") == "\n    []";
    assert PREFIX + (" response = 404, " + "]") == "\n    [ response = 404, ]";
  }

  lemma EarlyIsSeen()
    ensures Instance(Payload(PARSED, EARLY_EDGE)) == Some(EARLY_SEEN)
  {
    TextIsParsed();
    TextIsClosed();
    EarlyIsGood();
    InsidePrinted();
    NothingSeen();
    hide Instance, DefinitionsClosed, GoodCall, AllVerbatim, Inside, AttrMap;
    AllIsVerbatim(End);
    hide Verbatim, HandleTop, HandleEdges;
    OneHop(TEXT, EARLY);
    PayloadsAre();
  }

  lemma NothingSeen()
    ensures AttrMap(BodyAttrs(End)) == map[] && ItemEdges(Items(End)) == []
    ensures HandleTop(HandleEdges(NodesOnly(PARSED), []), map[]) == EARLY_SEEN
  {
    assert Names([]) == {};
  }

  lemma LateIsSeen()
    ensures Instance(Payload(PARSED, LATE_EDGE)) == Some(LATE_SEEN)
  {
    TextIsParsed();
    TextIsClosed();
    LateIsGood();
    InsidePrinted();
    ResponseSeen();
    hide Instance, DefinitionsClosed, GoodCall, Inside, AttrMap, Items, BodyAttrs, AllVerbatim, ItemEdges;
    AllIsVerbatim(LATE.body);
    hide Verbatim, HandleTop, HandleEdges;
    OneHop(TEXT, LATE);
    PayloadsAre();
  }

  lemma NotFound()
    ensures Decimal(404) == "404"
  {
    assert Decimal(40) == "40";
  }

  lemma ResponseSeen()
    ensures GoodBody(LATE.body)
    ensures AttrMap(BodyAttrs(LATE.body)) == map["response" := "404"] && ItemEdges(Items(LATE.body)) == []
    ensures HandleTop(HandleEdges(NodesOnly(PARSED), []), map["response" := "404"]) == LATE_SEEN
  {
    NotFoundIsGood();
    ItemsAre();
    NotFound();
    hide AllVerbatim, Decimal, GoodBody, BodyAttrs, Items;
    var response := Attr("response", Number(404));
    AttrMapSnoc([], response);
    assert [] + [response] == [response];
    assert [AttrItem(response)][1..] == [];
    assert Names([]) == {};
  }

  lemma ItemsAre()
    requires GoodBody(LATE.body)
    ensures BodyAttrs(LATE.body) == [Attr("response", Number(404))]
    ensures Items(LATE.body) == [AttrItem(Attr("response", Number(404)))]
  {
    NumbersAreGood();
    hide NumeralValue, GoodAttrL;
    assert BodyAttrs(End) == [] && Items(End) == [];
  }

  // ---------- warnings ----------

  lemma WarningsAre()
    ensures LocalWarnings(PARSED) == [] && LocalWarnings(LATE_SEEN) == []
    ensures LocalWarnings(EARLY_SEEN) == [NoResponse]
  {
    TextIsExecuted();
    LateIsSilent();
    EarlyIsWarned();
    hide SanityChecks;
  }

  lemma LateIsSilent()
    ensures SanityChecks(NODES, {}, LATE_SEEN.top) == Checked([])
  {
    LateIsSeen();
    NodesAreComplete();
    NotFoundIsStatus();
    hide Instance, SanityChecks, Complete, Numbered, Payload;
    SilentOnAccepted(Payload(PARSED, LATE_EDGE));
  }

  lemma NotFoundIsStatus()
    ensures Numbered(map["response" := "404"])
  {
    NotFound();
    hide Decimal;
    assert IntText("404", 1, 600);
  }

  lemma EarlyIsWarned()
    ensures SanityChecks(NODES, {}, map[]) == Checked([NoResponse])
  {
    LateIsSilent();
    SilentParts(NODES, {}, LATE_SEEN.top);
    NoResponseIsWarned();
    hide NodesWarnings, DestinationWarnings, TopWarnings, UsecThrows, UsecWarnings, SortedKeys;
  }

  lemma NoResponseIsWarned()
    ensures TopWarnings(map[]) == [NoResponse] && !UsecThrows(map[]) && UsecWarnings(map[]) == []
  {
  }

  // ---------- lines ----------

  lemma KeysAre()
    ensures SortedKeys({}) == [] && SortedKeys({"a_1"}) == ["a_1"] && SortedKeys({"response"}) == ["response"]
  {
    assert Least({"a_1"}) == "a_1" && {"a_1"} - {"a_1"} == {};
    assert Least({"response"}) == "response" && {"response"} - {"response"} == {};
    hide LexLe;
    assert SortedKeys({"a_1"}) == ["a_1"] + SortedKeys({});
    assert SortedKeys({"response"}) == ["response"] + SortedKeys({});
  }

  lemma NotesAre()
    ensures NodeLines(SortedKeys(NODES.Keys), NODES) == [NodeLine("a_1", map["hostname" := "h", "port" := "80"])]
    ensures Notes(SortedKeys(PARSED.top.Keys), PARSED.top) == [Note("response", "200")]
    ensures Notes(SortedKeys(LATE_SEEN.top.Keys), LATE_SEEN.top) == [Note("response", "404")]
    ensures Notes(SortedKeys(EARLY_SEEN.top.Keys), EARLY_SEEN.top) == []
  {
    KeysAre();
    hide SortedKeys;
    assert NODES.Keys == {"a_1"} && PARSED.top.Keys == {"response"} && LATE_SEEN.top.Keys == {"response"};
    assert ["a_1"][1..] == [] && ["response"][1..] == [];
    assert EARLY_SEEN.top.Keys == {};
  }

  lemma LabelsAre()
    ensures Label([]) == "1" && Label([] + [0]) == "1.0" && Label([] + [7]) == "1.7"
  {
    LabelSnoc([], 0);
    LabelSnoc([], 7);
    assert Decimal(0) == "0" && Decimal(7) == "7";
    assert "1" + "." + "0" == "1.0" && "1" + "." + "7" == "1.7";
  }

  const WALK: Walk := Walk([EARLY_EDGE, LATE_EDGE], [Walk([], []), Walk([], [])])

  lemma LeafWalk(text: string, st: State, w: Walk)
    requires Instance(text) == Some(st) && st.edges == []
    ensures ValidWalk(text, w) <==> w == Walk([], []) && SanityChecks(st.nodes, st.destinations, st.top).Checked?
  {
    hide Instance, SanityChecks;
    assert IsDrain(w.order, []) <==> w.order == [] by {
      if IsDrain(w.order, []) {
        assert |multiset(w.order)| == |w.order|;
      }
    }
  }

  /** There is one way to walk through the request. */
  lemma WalkIs(w: Walk)
    ensures ValidWalk(TEXT, w) <==> w == WALK
  {
    TextIsExecuted();
    EarlyIsSeen();
    LateIsSeen();
    LateIsSilent();
    EarlyIsWarned();
    hide Instance, SanityChecks, Payload;
    var early, late := Payload(PARSED, EARLY_EDGE), Payload(PARSED, LATE_EDGE);
    if |w.subs| == 2 {
      LeafWalk(early, EARLY_SEEN, w.subs[0]);
      LeafWalk(late, LATE_SEEN, w.subs[1]);
    }
    DrainIs(w.order);
    hide IsDrain;
    assert w == WALK <==> w.order == WALK.order && w.subs == WALK.subs;
  }

  lemma DrainIs(order: seq<EdgeDetails>)
    ensures IsDrain(order, PARSED.edges) <==> order == [EARLY_EDGE, LATE_EDGE]
  {
    if IsDrain(order, PARSED.edges) {
      OrderIs(order);
    }
  }

  lemma LeafLines(text: string, st: State, name: string, path: seq<nat>)
    requires Instance(text) == Some(st)
    ensures AllWarnings(text, Walk([], [])) == LocalWarnings(st)
    ensures Lines(text, "TopNode", name, path, Walk([], []))
            == [EdgeLine("TopNode", name, Label(path))] + Notes(SortedKeys(st.top.Keys), st.top)
               + (if LocalWarnings(st) != [] then [WarningText(LocalWarnings(st))] else [])
  {
    hide Instance, Label, SortedKeys, LocalWarnings, Notes;
    var w := Walk([], []);
    assert StateOf(text) == st;
    assert AllWarnings(text, w) == LocalWarnings(st) + SubWarnings(st, [], []) == LocalWarnings(st);
    var own := OwnLines("TopNode", name, path, st);
    assert Header("TopNode", st) == [] && SubLines(st, name, path, w.order, w.subs) == [];
    assert [] + own == own && own + [] == own;
  }

  lemma EarlyLines()
    ensures Lines(Payload(PARSED, EARLY_EDGE), "TopNode", "a_1", [] + [0], Walk([], []))
            == [EdgeLine("TopNode", "a_1", "1.0"), WarningText([NoResponse])]
    ensures AllWarnings(Payload(PARSED, EARLY_EDGE), Walk([], [])) == [NoResponse]
  {
    EarlyIsSeen();
    WarningsAre();
    NotesAre();
    LabelsAre();
    hide Instance, Label, SortedKeys, LocalWarnings, Notes, Payload, Lines, AllWarnings;
    LeafLines(Payload(PARSED, EARLY_EDGE), EARLY_SEEN, "a_1", [] + [0]);
  }

  lemma LateLines()
    ensures Lines(Payload(PARSED, LATE_EDGE), "TopNode", "a_1", [] + [7], Walk([], []))
            == [EdgeLine("TopNode", "a_1", "1.7"), Note("response", "404")]
    ensures AllWarnings(Payload(PARSED, LATE_EDGE), Walk([], [])) == []
  {
    LateIsSeen();
    WarningsAre();
    NotesAre();
    LabelsAre();
    hide Instance, Label, SortedKeys, LocalWarnings, Notes, Payload, Lines, AllWarnings;
    LeafLines(Payload(PARSED, LATE_EDGE), LATE_SEEN, "a_1", [] + [7]);
  }

  lemma CallLines()
    ensures SubLines(PARSED, "TopNode", [], WALK.order, WALK.subs) == [
              EdgeLine("TopNode", "a_1", "1.0"), WarningText([NoResponse]),
              EdgeLine("TopNode", "a_1", "1.7"), Note("response", "404")]
    ensures SubWarnings(PARSED, WALK.order, WALK.subs) == [NoResponse]
  {
    EarlyLines();
    LateLines();
    hide Payload, Lines, AllWarnings;
    var leaf := Walk([], []);
    assert WALK.order[1..] == [LATE_EDGE] && WALK.subs[1..] == [leaf];
    assert [LATE_EDGE][1..] == [] && [leaf][1..] == [];
    var late := Payload(PARSED, LATE_EDGE);
    assert SubLines(PARSED, "TopNode", [], [LATE_EDGE], [leaf])
        == Lines(late, "TopNode", "a_1", [] + [7], leaf) + SubLines(PARSED, "TopNode", [], [], []);
    assert SubWarnings(PARSED, [LATE_EDGE], [leaf]) == AllWarnings(late, leaf) + SubWarnings(PARSED, [], []);
  }

  /** The graph: the node, the request, the call numbered 0 with its own warning, and the call numbered 7. */
  lemma LinesAre(w: Walk)
    requires ValidWalk(TEXT, w)
    ensures Lines(TEXT, "Source", "TopNode", [], w) == [
              Preamble,
              NodeLine("a_1", map["hostname" := "h", "port" := "80"]),
              EdgeLine("Source", "TopNode", "1"), Note("response", "200"),
              EdgeLine("TopNode", "a_1", "1.0"), WarningText([NoResponse]),
              EdgeLine("TopNode", "a_1", "1.7"), Note("response", "404"),
              Close, WarningText([NoResponse])]
  {
    WalkIs(w);
    TextIsParsed();
    WarningsAre();
    NotesAre();
    LabelsAre();
    CallLines();
    hide Instance, Label, SortedKeys, LocalWarnings, Notes, NodeLines, SubLines, SubWarnings, ValidWalk;
    assert AllWarnings(TEXT, w) == LocalWarnings(PARSED) + SubWarnings(PARSED, w.order, w.subs) == [NoResponse];
    assert Footer("Source", [NoResponse]) == [Close, WarningText([NoResponse])];
    RootIs(w);
  }

  lemma RootIs(w: Walk)
    ensures Lines(TEXT, "Source", "TopNode", [], w)
            == Header("Source", StateOf(TEXT)) + OwnLines("Source", "TopNode", [], StateOf(TEXT))
               + SubLines(StateOf(TEXT), "TopNode", [], w.order, w.subs)
               + Footer("Source", AllWarnings(TEXT, w))
  {
  }
}
