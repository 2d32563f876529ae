/** What the linter writes for a request and everything nested in it, for any order of ties. */
module LintWalk {
  import opened Lexical
  import opened Actions
  import opened NodeGlob
  import opened Hops
  import opened Fleet
  import opened Sanity
  import opened Sums
  import opened Sequences
  import opened Labels

  datatype Line =
    | Preamble
    | NodeLine(node: string, attrs: Attributes)
    | EdgeLine(caller: string, name: string, labelText: string)
    | Note(key: string, value: string)
    | Close
    | WarningText(warnings: seq<Warning>)

  /** The order in which the queue of a request was drained, and the walks through its calls. */
  datatype Walk = Walk(order: seq<EdgeDetails>, subs: seq<Walk>)

  ghost predicate ValidWalk(text: string, w: Walk)
    decreases w
  {
    match Instance(text)
    case None => false
    case Some(st) =>
      && SanityChecks(st.nodes, st.destinations, st.top).Checked?
      && IsDrain(w.order, st.edges)
      && ValidSubs(st, w.order, w.subs)
  }

  ghost predicate ValidSubs(st: State, order: seq<EdgeDetails>, subs: seq<Walk>)
    decreases subs
  {
    && |subs| == |order|
    && forall k | 0 <= k < |subs| :: ValidWalk(Payload(st, order[k]), subs[k])
  }

  function StateOf(text: string): State {
    if Instance(text).Some? then Instance(text).value else EMPTY
  }

  function LocalWarnings(st: State): seq<Warning> {
    var outcome := SanityChecks(st.nodes, st.destinations, st.top);
    if outcome.Checked? then outcome.warnings else []
  }

  /** `warnings_` at the end of `Execute`: the local ones, then those of each call. */
  function AllWarnings(text: string, w: Walk): seq<Warning>
    decreases w, 1, 0
  {
    LocalWarnings(StateOf(text)) + SubWarnings(StateOf(text), w.order, w.subs)
  }

  function SubWarnings(st: State, order: seq<EdgeDetails>, subs: seq<Walk>): seq<Warning>
    decreases subs, 0, |subs|
  {
    if order == [] || subs == [] then []
    else AllWarnings(Payload(st, order[0]), subs[0]) + SubWarnings(st, order[1..], subs[1..])
  }

  function NodeLines(keys: seq<string>, nodes: map<string, Attributes>): seq<Line> {
    if keys == [] then []
    else (if keys[0] in nodes then [NodeLine(keys[0], nodes[keys[0]])] else []) + NodeLines(keys[1..], nodes)
  }

  function Notes(keys: seq<string>, top: Attributes): seq<Line> {
    if keys == [] then []
    else (if keys[0] in top then [Note(keys[0], top[keys[0]])] else []) + Notes(keys[1..], top)
  }

  function Header(caller: string, st: State): seq<Line> {
    if caller == "Source" then [Preamble] + NodeLines(Ordered.SortedKeys(st.nodes.Keys), st.nodes) else []
  }

  function OwnLines(caller: string, name: string, path: seq<nat>, st: State): seq<Line> {
    [EdgeLine(caller, name, Label(path))] + Notes(Ordered.SortedKeys(st.top.Keys), st.top)
  }

  function Footer(caller: string, warnings: seq<Warning>): seq<Line> {
    (if caller == "Source" then [Close] else []) + (if warnings != [] then [WarningText(warnings)] else [])
  }

  /** Everything `Execute` writes to the stream. */
  function Lines(text: string, caller: string, name: string, path: seq<nat>, w: Walk): seq<Line>
    decreases w, 1, 0
  {
    Header(caller, StateOf(text)) + OwnLines(caller, name, path, StateOf(text))
    + SubLines(StateOf(text), name, path, w.order, w.subs)
    + Footer(caller, AllWarnings(text, w))
  }

  function SubLines(st: State, name: string, path: seq<nat>, order: seq<EdgeDetails>, subs: seq<Walk>): seq<Line>
    decreases subs, 0, |subs|
  {
    if order == [] || subs == [] then []
    else
      Lines(Payload(st, order[0]), name, order[0].name, path + [order[0].sequence], subs[0])
      + SubLines(st, name, path, order[1..], subs[1..])
  }

  /** What is written for one call. */
  function FirstLines(st: State, name: string, path: seq<nat>, e: EdgeDetails, w: Walk): seq<Line> {
    Lines(Payload(st, e), name, e.name, path + [e.sequence], w)
  }

  lemma SubLinesCons(st: State, name: string, path: seq<nat>, order: seq<EdgeDetails>, subs: seq<Walk>)
    requires order != [] && subs != []
    ensures SubLines(st, name, path, order, subs)
            == FirstLines(st, name, path, order[0], subs[0]) + SubLines(st, name, path, order[1..], subs[1..])
  {
  }

  // ---------- the graph that is drawn ----------

  function Edges(lines: seq<Line>): seq<Line> {
    if lines == [] then []
    else (if lines[0].EdgeLine? then [lines[0]] else []) + Edges(lines[1..])
  }

  lemma {:induction false} EdgesAppend(a: seq<Line>, b: seq<Line>)
    ensures Edges(a + b) == Edges(a) + Edges(b)
  {
    if a == [] {
      assert a + b == b;
    } else {
      Tail(a, b);
      EdgesAppend(a[1..], b);
      Associate(if a[0].EdgeLine? then [a[0]] else [], Edges(a[1..]), Edges(b));
    }
  }

  lemma NoEdges(lines: seq<Line>)
    requires forall l | l in lines :: !l.EdgeLine?
    ensures Edges(lines) == []
  {
  }

  lemma NodeLinesAreNodes(keys: seq<string>, nodes: map<string, Attributes>)
    ensures forall l | l in NodeLines(keys, nodes) :: l.NodeLine?
  {
  }

  lemma NotesAreNotes(keys: seq<string>, top: Attributes)
    ensures forall l | l in Notes(keys, top) :: l.Note?
  {
  }

  lemma EdgesOfParts(a: seq<Line>, b: seq<Line>, c: seq<Line>, d: seq<Line>)
    ensures Edges(a + b + c + d) == Edges(a) + Edges(b) + Edges(c) + Edges(d)
  {
    EdgesAppend(a, b);
    EdgesAppend(a + b, c);
    EdgesAppend(a + b + c, d);
  }

  lemma OwnEdge(caller: string, name: string, path: seq<nat>, st: State)
    ensures Edges(OwnLines(caller, name, path, st)) == [EdgeLine(caller, name, Label(path))]
    ensures Edges(Header(caller, st)) == []
  {
    var notes, edge := Notes(Ordered.SortedKeys(st.top.Keys), st.top), EdgeLine(caller, name, Label(path));
    NotesAreNotes(Ordered.SortedKeys(st.top.Keys), st.top);
    NodeLinesAreNodes(Ordered.SortedKeys(st.nodes.Keys), st.nodes);
    NoEdges(notes);
    NoEdges(Header(caller, st));
    assert ([edge] + notes)[1..] == notes;
  }

  lemma PartEdges(header: seq<Line>, own: seq<Line>, sub: seq<Line>, footer: seq<Line>, edge: Line)
    requires Edges(header) == [] && Edges(own) == [edge] && Edges(footer) == []
    ensures Edges(header + own + sub + footer) == [edge] + Edges(sub)
  {
    EdgesOfParts(header, own, sub, footer);
  }

  lemma LineEdges(text: string, caller: string, name: string, path: seq<nat>, w: Walk)
    ensures Edges(Lines(text, caller, name, path, w))
            == [EdgeLine(caller, name, Label(path))]
               + Edges(SubLines(StateOf(text), name, path, w.order, w.subs))
  {
    var st, footer := StateOf(text), Footer(caller, AllWarnings(text, w));
    OwnEdge(caller, name, path, st);
    NoEdges(footer);
    PartEdges(Header(caller, st), OwnLines(caller, name, path, st),
              SubLines(st, name, path, w.order, w.subs), footer, EdgeLine(caller, name, Label(path)));
  }

  /** The edges of a tree of requests, each call once. */
  function TreeEdges(t: Tree, caller: string, name: string, path: seq<nat>): seq<Line>
    decreases t, 1, 0
  {
    [EdgeLine(caller, name, Label(path))] + (if t.Request? then CallEdges(t.calls, name, path) else [])
  }

  function CallEdges(calls: seq<Subcall>, name: string, path: seq<nat>): seq<Line>
    decreases calls, 0, |calls|
  {
    if calls == [] then []
    else
      TreeEdges(calls[0].request, name, calls[0].dest, path + [calls[0].sequence])
      + CallEdges(calls[1..], name, path)
  }

  ghost function EdgesFor(st: State, name: string, path: seq<nat>, e: EdgeDetails): multiset<Line> {
    multiset(TreeEdges(HopTree(Payload(st, e)), name, e.name, path + [e.sequence]))
  }

  lemma {:induction false} CallEdgesAreSum(text: string, name: string, path: seq<nat>, edges: seq<EdgeDetails>)
    requires Instance(text).Some? && forall e | e in edges :: e in Instance(text).value.edges
    ensures multiset(CallEdges(HopCalls(text, edges), name, path))
            == SumOver(e => EdgesFor(Instance(text).value, name, path, e), edges)
  {
    if edges != [] {
      CallEdgesAreSum(text, name, path, edges[1..]);
      assert HopCalls(text, edges)[1..] == HopCalls(text, edges[1..]);
    }
  }

  /**
   For every input and every order of ties, the linter draws exactly the edges of the tree that the
   fleet executes, each call once however often it is repeated.
   */
  lemma {:induction false} LintDrawsTheTree(text: string, caller: string, name: string, path: seq<nat>, w: Walk)
    requires ValidWalk(text, w)
    ensures multiset(Edges(Lines(text, caller, name, path, w)))
            == multiset(TreeEdges(HopTree(text), caller, name, path))
    decreases w, 1, 0
  {
    var st := Instance(text).value;
    LineEdges(text, caller, name, path, w);
    SubLinesDraw(st, name, path, w.order, w.subs);
    SumPermutation(e => EdgesFor(st, name, path, e), w.order, st.edges);
    CallEdgesAreSum(text, name, path, st.edges);
  }

  lemma {:induction false} SubLinesDraw(
      st: State, name: string, path: seq<nat>, order: seq<EdgeDetails>, subs: seq<Walk>)
    requires ValidSubs(st, order, subs)
    ensures multiset(Edges(SubLines(st, name, path, order, subs)))
            == SumOver(e => EdgesFor(st, name, path, e), order)
    decreases subs, 0, |subs|
  {
    if order != [] {
      SubLinesDraw(st, name, path, order[1..], subs[1..]);
      OneWalkDraws(st, name, path, order[0], subs[0]);
      SubLinesCons(st, name, path, order, subs);
      PartsDraw(e => EdgesFor(st, name, path, e), order, SubLines(st, name, path, order, subs),
                FirstLines(st, name, path, order[0], subs[0]), SubLines(st, name, path, order[1..], subs[1..]));
    }
  }

  lemma PartsDraw(f: EdgeDetails -> multiset<Line>, order: seq<EdgeDetails>,
                  all: seq<Line>, head: seq<Line>, tail: seq<Line>)
    requires order != [] && all == head + tail
    requires multiset(Edges(head)) == f(order[0]) && multiset(Edges(tail)) == SumOver(f, order[1..])
    ensures multiset(Edges(all)) == SumOver(f, order)
  {
    EdgesAppend(head, tail);
    SumCons(f, order, Edges(head), Edges(tail));
  }

  lemma {:induction false} OneWalkDraws(st: State, name: string, path: seq<nat>, e: EdgeDetails, w: Walk)
    requires ValidWalk(Payload(st, e), w)
    ensures multiset(Edges(FirstLines(st, name, path, e, w))) == EdgesFor(st, name, path, e)
    decreases w, 2, 0
  {
    LintDrawsTheTree(Payload(st, e), name, e.name, path + [e.sequence], w);
  }

  // ---------- warnings add up ----------

  /** The warnings of every request in a tree. */
  function TreeWarnings(t: Tree): seq<Warning>
    decreases t, 1, 0
  {
    if t.Refused? then []
    else
      var outcome := SanityChecks(t.nodes, Destinations(t.calls), t.attrs);
      (if outcome.Checked? then outcome.warnings else []) + CallWarnings(t.calls)
  }

  function CallWarnings(calls: seq<Subcall>): seq<Warning>
    decreases calls, 0, |calls|
  {
    if calls == [] then [] else TreeWarnings(calls[0].request) + CallWarnings(calls[1..])
  }

  ghost function WarningsFor(st: State, e: EdgeDetails): multiset<Warning> {
    multiset(TreeWarnings(HopTree(Payload(st, e))))
  }

  lemma {:induction false} CallWarningsAreSum(text: string, edges: seq<EdgeDetails>)
    requires Instance(text).Some? && forall e | e in edges :: e in Instance(text).value.edges
    ensures multiset(CallWarnings(HopCalls(text, edges)))
            == SumOver(e => WarningsFor(Instance(text).value, e), edges)
  {
    if edges != [] {
      CallWarningsAreSum(text, edges[1..]);
      assert HopCalls(text, edges)[1..] == HopCalls(text, edges[1..]);
    }
  }

  /** The root's warnings are those of every nested request, none lost and none twice. */
  lemma {:induction false} WarningsAddUp(text: string, w: Walk)
    requires ValidWalk(text, w)
    ensures multiset(AllWarnings(text, w)) == multiset(TreeWarnings(HopTree(text)))
    ensures |AllWarnings(text, w)| == |TreeWarnings(HopTree(text))|
    decreases w, 1, 0
  {
    var st := Instance(text).value;
    SameDestinations(text);
    SubWarningsAddUp(st, w.order, w.subs);
    SumPermutation(e => WarningsFor(st, e), w.order, st.edges);
    CallWarningsAreSum(text, st.edges);
    assert |AllWarnings(text, w)| == |multiset(AllWarnings(text, w))|;
    assert |TreeWarnings(HopTree(text))| == |multiset(TreeWarnings(HopTree(text)))|;
  }

  lemma {:induction false} SubWarningsAddUp(st: State, order: seq<EdgeDetails>, subs: seq<Walk>)
    requires ValidSubs(st, order, subs)
    ensures multiset(SubWarnings(st, order, subs)) == SumOver(e => WarningsFor(st, e), order)
    decreases subs, 0, |subs|
  {
    if order != [] {
      SubWarningsAddUp(st, order[1..], subs[1..]);
      FirstSubAddsUp(st, order, subs);
    }
  }

  lemma {:induction false} FirstSubAddsUp(st: State, order: seq<EdgeDetails>, subs: seq<Walk>)
    requires order != [] && ValidSubs(st, order, subs)
    requires multiset(SubWarnings(st, order[1..], subs[1..])) == SumOver(e => WarningsFor(st, e), order[1..])
    ensures multiset(SubWarnings(st, order, subs)) == SumOver(e => WarningsFor(st, e), order)
    decreases subs, 0, 0
  {
    OneWalkAddsUp(st, order[0], subs[0]);
    SumCons(e => WarningsFor(st, e), order,
            AllWarnings(Payload(st, order[0]), subs[0]), SubWarnings(st, order[1..], subs[1..]));
  }

  lemma {:induction false} OneWalkAddsUp(st: State, e: EdgeDetails, w: Walk)
    requires ValidWalk(Payload(st, e), w)
    ensures multiset(AllWarnings(Payload(st, e), w)) == WarningsFor(st, e)
    decreases w, 2, 0
  {
    WarningsAddUp(Payload(st, e), w);
  }

  lemma SameDestinations(text: string)
    requires Instance(text).Some?
    ensures Destinations(HopCalls(text, Instance(text).value.edges)) == Instance(text).value.destinations
  {
    var st := Instance(text).value;
    DestinationsAreEdgeNames(Grammar.Parse(Scanner.Scan(Scanner.Initial, text)).value);
    HopCallsNames(text, st.edges);
    assert Destinations(HopCalls(text, st.edges)) == Names(st.edges);
  }

  // ---------- what is listed ----------

  /** Every attribute once, in key order, with its value. */
  ghost predicate ListsAttributes(lines: seq<Line>, top: Attributes) {
    && |lines| == |top|
    && (forall i | 0 <= i < |lines| :: lines[i].Note? && lines[i].key in top && lines[i].value == top[lines[i].key])
    && forall i, j | 0 <= i < j < |lines| ::
         lines[i].Note? && lines[j].Note? && lines[i].key != lines[j].key && Ordered.LexLe(lines[i].key, lines[j].key)
  }

  /** Every node once, in name order, with its attributes. */
  ghost predicate ListsNodes(lines: seq<Line>, nodes: map<string, Attributes>) {
    && |lines| == |nodes|
    && (forall i | 0 <= i < |lines| ::
          lines[i].NodeLine? && lines[i].node in nodes && lines[i].attrs == nodes[lines[i].node])
    && forall i, j | 0 <= i < j < |lines| ::
         && lines[i].NodeLine? && lines[j].NodeLine?
         && lines[i].node != lines[j].node && Ordered.LexLe(lines[i].node, lines[j].node)
  }

  lemma {:induction false} NotesAt(keys: seq<string>, top: Attributes)
    requires forall k | k in keys :: k in top
    ensures |Notes(keys, top)| == |keys|
    ensures forall i | 0 <= i < |keys| :: Notes(keys, top)[i] == Note(keys[i], top[keys[i]])
  {
    if keys != [] {
      assert keys[0] in keys;
      NotesAt(keys[1..], top);
    }
  }

  lemma {:induction false} NodeLinesAt(keys: seq<string>, nodes: map<string, Attributes>)
    requires forall k | k in keys :: k in nodes
    ensures |NodeLines(keys, nodes)| == |keys|
    ensures forall i | 0 <= i < |keys| :: NodeLines(keys, nodes)[i] == NodeLine(keys[i], nodes[keys[i]])
  {
    if keys != [] {
      assert keys[0] in keys;
      NodeLinesAt(keys[1..], nodes);
    }
  }

  lemma NotesAreListed(top: Attributes)
    ensures ListsAttributes(Notes(Ordered.SortedKeys(top.Keys), top), top)
  {
    hide Notes, ListsAttributes, Ordered.SortedKeys, Ordered.LexLe;
    Ordered.SortedKeysCount(top.Keys);
    KeysCount(top);
    NotesListed(Ordered.SortedKeys(top.Keys), top);
  }

  lemma KeysCount<V>(m: map<string, V>)
    ensures |m.Keys| == |m|
  {
  }

  lemma NotesListed(keys: seq<string>, top: Attributes)
    requires |keys| == |top| && forall k | k in keys :: k in top
    requires forall i, j | 0 <= i < j < |keys| :: Ordered.LexLe(keys[i], keys[j]) && keys[i] != keys[j]
    ensures ListsAttributes(Notes(keys, top), top)
  {
    NotesAt(keys, top);
    hide Notes, Ordered.LexLe;
    assert forall i | 0 <= i < |keys| :: keys[i] in keys;
  }

  lemma NodesAreListed(nodes: map<string, Attributes>)
    ensures ListsNodes(NodeLines(Ordered.SortedKeys(nodes.Keys), nodes), nodes)
  {
    hide NodeLines, ListsNodes, Ordered.SortedKeys, Ordered.LexLe;
    Ordered.SortedKeysCount(nodes.Keys);
    KeysCount(nodes);
    NodesListed(Ordered.SortedKeys(nodes.Keys), nodes);
  }

  lemma NodesListed(keys: seq<string>, nodes: map<string, Attributes>)
    requires |keys| == |nodes| && forall k | k in keys :: k in nodes
    requires forall i, j | 0 <= i < j < |keys| :: Ordered.LexLe(keys[i], keys[j]) && keys[i] != keys[j]
    ensures ListsNodes(NodeLines(keys, nodes), nodes)
  {
    NodeLinesAt(keys, nodes);
    hide NodeLines, Ordered.LexLe;
    assert forall i | 0 <= i < |keys| :: keys[i] in keys;
  }

  /** The lines start as they should: preamble and nodes only for the caller Source, then edge and attributes. */
  ghost predicate StartsAs(lines: seq<Line>, st: State, edge: Line, nodeLines: seq<Line>, notes: seq<Line>,
                           rest: seq<Line>)
  {
    && lines == nodeLines + [edge] + notes + rest
    && edge.EdgeLine? && ListsAttributes(notes, st.top)
    && if edge.caller == "Source" then
         nodeLines != [] && nodeLines[0] == Preamble && ListsNodes(nodeLines[1..], st.nodes)
       else nodeLines == []
  }

  /**
   What is written for a request: at the top level the preamble and all nodes, then its own edge, and right
   behind it each of its attributes once.
   */
  lemma RequestIsListed(text: string, caller: string, name: string, path: seq<nat>, w: Walk)
    requires Instance(text).Some?
    ensures exists nodeLines, notes, rest ::
              StartsAs(Lines(text, caller, name, path, w), Instance(text).value,
                       EdgeLine(caller, name, Label(path)), nodeLines, notes, rest)
  {
    var st := Instance(text).value;
    var edge := EdgeLine(caller, name, Label(path));
    var notes := Notes(Ordered.SortedKeys(st.top.Keys), st.top);
    var nodes := NodeLines(Ordered.SortedKeys(st.nodes.Keys), st.nodes);
    var sub, footer := SubLines(st, name, path, w.order, w.subs), Footer(caller, AllWarnings(text, w));
    NotesAreListed(st.top);
    NodesAreListed(st.nodes);
    assert Lines(text, caller, name, path, w) == Header(caller, st) + ([edge] + notes) + sub + footer;
    hide Lines, Notes, NodeLines, SubLines, Footer, ListsNodes, ListsAttributes, Label, AllWarnings, Instance;
    Grouped(Header(caller, st), [edge], notes, sub, footer);
    if caller == "Source" {
      Cons(Preamble, nodes);
    }
    assert StartsAs(Lines(text, caller, name, path, w), st, edge, Header(caller, st), notes, sub + footer);
  }

  lemma Grouped<X>(a: seq<X>, b: seq<X>, c: seq<X>, d: seq<X>, e: seq<X>)
    ensures a + (b + c) + d + e == a + b + c + (d + e)
  {
  }
}
