/** The linter's output as one graph, and its agreement with what the fleet does. */
module LintGraph {
  import opened Lexical
  import opened Actions
  import opened NodeGlob
  import opened Hops
  import opened Layout
  import opened Fleet
  import opened Sums
  import opened Labels
  import opened LintWalk
  import opened Sequences

  // ---------- one graph around all edges ----------

  /** No request that runs at a node called `Source` makes calls. */
  predicate NoSourceCalls(t: Tree, name: string)
    decreases t, 1, 0
  {
    t.Request? ==> (name == "Source" ==> t.calls == []) && NoSourceBelow(t.calls)
  }

  predicate NoSourceBelow(calls: seq<Subcall>)
    decreases calls, 0, |calls|
  {
    calls == [] || (NoSourceCalls(calls[0].request, calls[0].dest) && NoSourceBelow(calls[1..]))
  }

  /** Same, on the text and in the order of a walk. */
  predicate NoSourceWalk(text: string, name: string, w: Walk)
    decreases w, 1, 0
  {
    (name == "Source" ==> w.order == []) && NoSourceSubs(StateOf(text), w.order, w.subs)
  }

  predicate NoSourceSubs(st: State, order: seq<EdgeDetails>, subs: seq<Walk>)
    decreases subs, 0, |subs|
  {
    || order == [] || subs == []
    || (NoSourceWalk(Payload(st, order[0]), order[0].name, subs[0]) && NoSourceSubs(st, order[1..], subs[1..]))
  }

  predicate Frames(l: Line) {
    l.Preamble? || l.Close?
  }

  ghost predicate NoFrames(lines: seq<Line>) {
    forall l | l in lines :: !Frames(l)
  }

  lemma NoFramesAppend(a: seq<Line>, b: seq<Line>)
    ensures NoFrames(a + b) <==> NoFrames(a) && NoFrames(b)
  {
    assert forall l :: l in a + b <==> l in a || l in b;
  }

  lemma NoFramesParts(a: seq<Line>, b: seq<Line>, c: seq<Line>, d: seq<Line>)
    ensures NoFrames(a + b + c + d) <==> NoFrames(a) && NoFrames(b) && NoFrames(c) && NoFrames(d)
  {
    NoFramesAppend(a, b);
    NoFramesAppend(a + b, c);
    NoFramesAppend(a + b + c, d);
  }

  lemma {:induction false} InnerLines(text: string, caller: string, name: string, path: seq<nat>, w: Walk)
    requires ValidWalk(text, w) && caller != "Source"
    ensures NoSourceWalk(text, name, w) <==> NoFrames(Lines(text, caller, name, path, w))
    decreases w, 1, 0
  {
    var st := StateOf(text);
    InnerSubLines(st, name, path, w.order, w.subs);
    OwnLinesDoNotFrame(caller, name, path, st);
    NoFramesParts(Header(caller, st), OwnLines(caller, name, path, st),
                  SubLines(st, name, path, w.order, w.subs), Footer(caller, AllWarnings(text, w)));
  }

  lemma OwnLinesDoNotFrame(caller: string, name: string, path: seq<nat>, st: State)
    ensures NoFrames(OwnLines(caller, name, path, st))
  {
    NotesAreNotes(Ordered.SortedKeys(st.top.Keys), st.top);
  }

  lemma FirstLineFrames(text: string, name: string, path: seq<nat>, w: Walk)
    ensures !NoFrames(Lines(text, "Source", name, path, w))
  {
    assert Lines(text, "Source", name, path, w)[0] == Preamble;
    assert Frames(Preamble);
  }

  lemma {:induction false} InnerSubLines(
      st: State, name: string, path: seq<nat>, order: seq<EdgeDetails>, subs: seq<Walk>)
    requires ValidSubs(st, order, subs)
    ensures (name == "Source" ==> order == []) && NoSourceSubs(st, order, subs)
            <==> NoFrames(SubLines(st, name, path, order, subs))
    decreases subs, 0, |subs|
  {
    hide Lines, FirstLines;
    if order != [] {
      if name == "Source" {
        SourceFrames(st, path, order, subs);
      } else {
        InnerCall(st, name, path, order[0], subs[0]);
        InnerSubLines(st, name, path, order[1..], subs[1..]);
        FirstSub(st, name, path, order, subs);
      }
    }
  }

  lemma {:induction false} InnerCall(st: State, name: string, path: seq<nat>, e: EdgeDetails, w: Walk)
    requires ValidWalk(Payload(st, e), w) && name != "Source"
    ensures NoSourceWalk(Payload(st, e), e.name, w) <==> NoFrames(FirstLines(st, name, path, e, w))
    decreases w, 2, 0
  {
    InnerLines(Payload(st, e), name, e.name, path + [e.sequence], w);
  }

  lemma FirstSub(st: State, name: string, path: seq<nat>, order: seq<EdgeDetails>, subs: seq<Walk>)
    requires |order| == |subs| > 0
    ensures NoFrames(SubLines(st, name, path, order, subs)) <==>
            && NoFrames(FirstLines(st, name, path, order[0], subs[0]))
            && NoFrames(SubLines(st, name, path, order[1..], subs[1..]))
  {
    SubLinesCons(st, name, path, order, subs);
    NoFramesAppend(FirstLines(st, name, path, order[0], subs[0]), SubLines(st, name, path, order[1..], subs[1..]));
  }

  lemma SourceFrames(st: State, path: seq<nat>, order: seq<EdgeDetails>, subs: seq<Walk>)
    requires |order| == |subs| > 0
    ensures !NoFrames(SubLines(st, "Source", path, order, subs))
  {
    FirstSub(st, "Source", path, order, subs);
    FirstLineFrames(Payload(st, order[0]), order[0].name, path + [order[0].sequence], subs[0]);
  }

  /** The lines between the first preamble and the last closing brace. */
  function Framed(text: string, w: Walk): seq<Line> {
    var st := StateOf(text);
    NodeLines(Ordered.SortedKeys(st.nodes.Keys), st.nodes)
    + OwnLines("Source", "TopNode", [], st)
    + SubLines(st, "TopNode", [], w.order, w.subs)
  }

  function Trailer(text: string, w: Walk): seq<Line> {
    var warnings := AllWarnings(text, w);
    if warnings != [] then [WarningText(warnings)] else []
  }

  lemma RootLines(text: string, w: Walk)
    ensures Lines(text, "Source", "TopNode", [], w)
            == [Preamble] + Framed(text, w) + [Close] + Trailer(text, w)
  {
    var st := StateOf(text);
    var nodes := NodeLines(Ordered.SortedKeys(st.nodes.Keys), st.nodes);
    var own, sub := OwnLines("Source", "TopNode", [], st), SubLines(st, "TopNode", [], w.order, w.subs);
    Regroup([Preamble], nodes, own, sub, [Close], Trailer(text, w));
  }

  lemma Regroup<X>(a: seq<X>, b: seq<X>, c: seq<X>, d: seq<X>, e: seq<X>, f: seq<X>)
    ensures (a + b) + c + d + (e + f) == a + (b + c + d) + e + f
  {
  }

  /**
   The linter writes one preamble and one closing brace, around all its edges, if and only if no
   node called `Source` makes calls.
   */
  lemma OneGraph(text: string, w: Walk)
    requires ValidWalk(text, w)
    ensures Lines(text, "Source", "TopNode", [], w) == [Preamble] + Framed(text, w) + [Close] + Trailer(text, w)
    ensures Edges(Trailer(text, w)) == []
    ensures NoSourceCalls(HopTree(text), "TopNode") <==> NoFrames(Framed(text, w))
  {
    RootLines(text, w);
    NoEdges(Trailer(text, w));
    SourceWalks(text, "TopNode", w);
    InsideFrames(text, w);
  }

  lemma InsideFrames(text: string, w: Walk)
    requires ValidWalk(text, w)
    ensures NoSourceWalk(text, "TopNode", w) <==> NoFrames(Framed(text, w))
  {
    var st := StateOf(text);
    var nodes := NodeLines(Ordered.SortedKeys(st.nodes.Keys), st.nodes);
    var own, sub := OwnLines("Source", "TopNode", [], st), SubLines(st, "TopNode", [], w.order, w.subs);
    NodeLinesAreNodes(Ordered.SortedKeys(st.nodes.Keys), st.nodes);
    OwnLinesDoNotFrame("Source", "TopNode", [], st);
    InnerSubLines(st, "TopNode", [], w.order, w.subs);
    NoFramesParts([], nodes, own, sub);
    assert [] + nodes == nodes;
  }

  predicate NoSourceVia(st: State, e: EdgeDetails) {
    NoSourceCalls(HopTree(Payload(st, e)), e.name)
  }

  lemma {:induction false} SourceWalks(text: string, name: string, w: Walk)
    requires ValidWalk(text, w)
    ensures NoSourceWalk(text, name, w) <==> NoSourceCalls(HopTree(text), name)
    decreases w, 1, 0
  {
    var st := Instance(text).value;
    SourceSubs(st, w.order, w.subs);
    SourceBelow(text, st.edges);
    AllPermutation(e => NoSourceVia(st, e), w.order, st.edges);
    assert |multiset(w.order)| == |w.order| && |multiset(st.edges)| == |st.edges|;
  }

  lemma {:induction false} SourceSubs(st: State, order: seq<EdgeDetails>, subs: seq<Walk>)
    requires ValidSubs(st, order, subs)
    ensures NoSourceSubs(st, order, subs) <==> All(e => NoSourceVia(st, e), order)
    decreases subs, 0, |subs|
  {
    if order != [] {
      SourceVia(st, order[0], subs[0]);
      SourceSubs(st, order[1..], subs[1..]);
    }
  }

  lemma {:induction false} SourceVia(st: State, e: EdgeDetails, w: Walk)
    requires ValidWalk(Payload(st, e), w)
    ensures NoSourceWalk(Payload(st, e), e.name, w) <==> NoSourceVia(st, e)
    decreases w, 2, 0
  {
    SourceWalks(Payload(st, e), e.name, w);
  }

  lemma {:induction false} SourceBelow(text: string, edges: seq<EdgeDetails>)
    requires Instance(text).Some? && forall e | e in edges :: e in Instance(text).value.edges
    ensures NoSourceBelow(HopCalls(text, edges)) <==> All(e => NoSourceVia(Instance(text).value, e), edges)
  {
    if edges != [] {
      SourceBelow(text, edges[1..]);
      assert HopCalls(text, edges)[1..] == HopCalls(text, edges[1..]);
    }
  }

  // ---------- the order of the edges ----------

  /** The tree of requests with the calls of each in the order of a walk. */
  function Arranged(text: string, w: Walk): Tree
    decreases w, 1, 0
  {
    var st := StateOf(text);
    Request(st.nodes, st.top, ArrangedCalls(st, w.order, w.subs))
  }

  function ArrangedCalls(st: State, order: seq<EdgeDetails>, subs: seq<Walk>): seq<Subcall>
    decreases subs, 0, |subs|
  {
    if order == [] || subs == [] then []
    else
      [Subcall(order[0].name, order[0].repeat, order[0].sequence, Arranged(Payload(st, order[0]), subs[0]))]
      + ArrangedCalls(st, order[1..], subs[1..])
  }

  /** On any walk the edges are those of the tree so arranged, each request's in front of its calls'. */
  lemma {:induction false} EdgesAreArranged(text: string, caller: string, name: string, path: seq<nat>, w: Walk)
    ensures Edges(Lines(text, caller, name, path, w)) == TreeEdges(Arranged(text, w), caller, name, path)
    decreases w, 1, 0
  {
    LineEdges(text, caller, name, path, w);
    SubEdgesAreArranged(StateOf(text), name, path, w.order, w.subs);
  }

  lemma {:induction false} SubEdgesAreArranged(
      st: State, name: string, path: seq<nat>, order: seq<EdgeDetails>, subs: seq<Walk>)
    ensures Edges(SubLines(st, name, path, order, subs)) == CallEdges(ArrangedCalls(st, order, subs), name, path)
    decreases subs, 0, |subs|
  {
    if order != [] && subs != [] {
      var e := order[0];
      EdgesAreArranged(Payload(st, e), name, e.name, path + [e.sequence], subs[0]);
      SubEdgesAreArranged(st, name, path, order[1..], subs[1..]);
      SubLinesCons(st, name, path, order, subs);
      EdgesAppend(FirstLines(st, name, path, e, subs[0]), SubLines(st, name, path, order[1..], subs[1..]));
      Cons(Subcall(e.name, e.repeat, e.sequence, Arranged(Payload(st, e), subs[0])),
           ArrangedCalls(st, order[1..], subs[1..]));
    }
  }

  predicate CallsInSequence(calls: seq<Subcall>) {
    forall i, j | 0 <= i < j < |calls| :: calls[i].sequence <= calls[j].sequence
  }

  /** `s` is `t` with the calls of each request sorted by sequence number, ties in any order. */
  ghost predicate SortsTo(t: Tree, s: Tree)
    decreases s, 1, 0
  {
    && t.Request? && s.Request? && t.nodes == s.nodes && t.attrs == s.attrs
    && CallsInSequence(s.calls)
    && exists mid :: multiset(mid) == multiset(t.calls) && SortsEach(mid, s.calls)
  }

  ghost predicate SortsEach(a: seq<Subcall>, b: seq<Subcall>)
    decreases b, 0, |b|
  {
    if b == [] then a == []
    else
      && a != []
      && a[0].(request := Refused) == b[0].(request := Refused) && SortsTo(a[0].request, b[0].request)
      && SortsEach(a[1..], b[1..])
  }

  lemma {:induction false} WalkSorts(text: string, w: Walk)
    requires ValidWalk(text, w)
    ensures SortsTo(HopTree(text), Arranged(text, w))
    decreases w, 1, 0
  {
    var st := Instance(text).value;
    Members(w.order, st.edges);
    SubsSort(text, w.order, w.subs);
    ArrangedInSequence(st, w.order, w.subs);
    SamePermutation(text, w.order, st.edges);
  }

  lemma {:induction false} SubsSort(text: string, order: seq<EdgeDetails>, subs: seq<Walk>)
    requires AllQueued(text, order) && ValidSubs(Instance(text).value, order, subs)
    ensures SortsEach(HopCalls(text, order), ArrangedCalls(Instance(text).value, order, subs))
    decreases subs, 0, |subs|
  {
    if order != [] {
      var st, e := Instance(text).value, order[0];
      HopCallsHead(text, order);
      FirstSorts(st, e, subs[0]);
      SubsSort(text, order[1..], subs[1..]);
      Cons(HopCall(text, e), HopCalls(text, order[1..]));
      Cons(Subcall(e.name, e.repeat, e.sequence, Arranged(Payload(st, e), subs[0])),
           ArrangedCalls(st, order[1..], subs[1..]));
    }
  }

  lemma {:induction false} FirstSorts(st: State, e: EdgeDetails, w: Walk)
    requires ValidWalk(Payload(st, e), w)
    ensures SortsTo(HopTree(Payload(st, e)), Arranged(Payload(st, e), w))
    decreases w, 2, 0
  {
    WalkSorts(Payload(st, e), w);
  }

  lemma ArrangedInSequence(st: State, order: seq<EdgeDetails>, subs: seq<Walk>)
    requires |order| == |subs| && InSequence(order)
    ensures CallsInSequence(ArrangedCalls(st, order, subs))
  {
    ArrangedNumbers(st, order, subs);
  }

  lemma {:induction false} ArrangedNumbers(st: State, order: seq<EdgeDetails>, subs: seq<Walk>)
    requires |order| == |subs|
    ensures var calls := ArrangedCalls(st, order, subs);
            |calls| == |order| && forall i | 0 <= i < |order| :: calls[i].sequence == order[i].sequence
  {
    if order != [] {
      ArrangedNumbers(st, order[1..], subs[1..]);
    }
  }

  function CallFor(st: State, e: EdgeDetails): Subcall {
    Subcall(e.name, e.repeat, e.sequence, HopTree(Payload(st, e)))
  }

  lemma {:induction false} HopCallsAreSum(text: string, edges: seq<EdgeDetails>)
    requires AllQueued(text, edges)
    ensures multiset(HopCalls(text, edges)) == SumOver(e => multiset{CallFor(Instance(text).value, e)}, edges)
  {
    if edges != [] {
      HopCallsHead(text, edges);
      HopCallsAreSum(text, edges[1..]);
      Append([HopCall(text, edges[0])], HopCalls(text, edges[1..]));
    }
  }

  lemma SamePermutation(text: string, a: seq<EdgeDetails>, b: seq<EdgeDetails>)
    requires AllQueued(text, a) && AllQueued(text, b) && multiset(a) == multiset(b)
    ensures multiset(HopCalls(text, a)) == multiset(HopCalls(text, b))
  {
    HopCallsAreSum(text, a);
    HopCallsAreSum(text, b);
    SumPermutation(e => multiset{CallFor(Instance(text).value, e)}, a, b);
  }

  /**
   The whole output in its order, for every input and every walk: the edges are exactly those of the
   tree of requests with all calls sorted by sequence number, each request's edge directly in front of
   the edges of its calls.
   */
  lemma EdgesInTreeOrder(text: string, w: Walk)
    requires ValidWalk(text, w)
    ensures SortsTo(HopTree(text), Arranged(text, w))
    ensures Edges(Lines(text, "Source", "TopNode", [], w)) == TreeEdges(Arranged(text, w), "Source", "TopNode", [])
  {
    WalkSorts(text, w);
    EdgesAreArranged(text, "Source", "TopNode", [], w);
  }

  // ---------- the linter agrees with the fleet ----------

  /** Every request that makes calls passes the gate where it is received. */
  predicate CallersAct(t: Tree)
    decreases t, 1, 0
  {
    t.Request? ==> if Acts(t) then CallersActIn(t.calls) else t.calls == []
  }

  predicate CallersActIn(calls: seq<Subcall>)
    decreases calls, 0, |calls|
  {
    calls == [] || (CallersAct(calls[0].request) && CallersActIn(calls[1..]))
  }

  /** The edge that stands for a call of the fleet. */
  function Drawn(p: Path): Line {
    if p == [] then EdgeLine("Source", "TopNode", "1")
    else EdgeLine(NameOf(p[..|p| - 1]), NameOf(p), Label(Numbers(p)))
  }

  function NameOf(p: Path): string {
    if p == [] then "TopNode" else p[|p| - 1].dest
  }

  function Numbers(p: Path): seq<nat> {
    if p == [] then [] else Numbers(p[..|p| - 1]) + [p[|p| - 1].sequence]
  }

  lemma NumbersSnoc(p: Path, h: Hop)
    ensures Numbers(p + [h]) == Numbers(p) + [h.sequence]
    ensures Drawn(p + [h]) == EdgeLine(NameOf(p), h.dest, Label(Numbers(p) + [h.sequence]))
  {
    assert (p + [h])[..|p|] == p;
  }

  function DrawnAll(paths: seq<Path>): (r: seq<Line>)
    ensures |r| == |paths| && forall i | 0 <= i < |r| :: r[i] == Drawn(paths[i])
  {
    if paths == [] then [] else [Drawn(paths[0])] + DrawnAll(paths[1..])
  }

  lemma {:induction false} DrawnAppend(a: seq<Path>, b: seq<Path>)
    ensures DrawnAll(a + b) == DrawnAll(a) + DrawnAll(b)
  {
  }

  /** The same tree with every repetition collapsed to one call. */
  function Collapse(t: Tree): Tree
    decreases t, 1, 0
  {
    match t
    case Refused => Refused
    case Request(nodes, attrs, calls) => Request(nodes, attrs, CollapseAll(calls))
  }

  function CollapseAll(calls: seq<Subcall>): (r: seq<Subcall>)
    ensures |r| == |calls| && forall i | 0 <= i < |r| :: r[i].dest == calls[i].dest
    decreases calls, 0, |calls|
  {
    if calls == [] then []
    else [calls[0].(repeat := 1, request := Collapse(calls[0].request))] + CollapseAll(calls[1..])
  }

  lemma CollapseActs(t: Tree)
    ensures Acts(Collapse(t)) <==> Acts(t)
  {
    if t.Request? {
      CollapseDestinations(t.calls);
    }
  }

  lemma CollapseDestinations(calls: seq<Subcall>)
    ensures Destinations(CollapseAll(calls)) == Destinations(calls)
  {
  }

  lemma CollapseHop(nodes: map<string, Attributes>, c: Subcall)
    ensures HopOf(nodes, c.(repeat := 1, request := Collapse(c.request))) == HopOf(nodes, c)
  {
  }

  /** In one and the same order: the edges of a tree are its calls with repetitions collapsed. */
  lemma {:induction false} EdgesAreCollapsedCalls(t: Tree, caller: string, name: string, prefix: Path)
    requires CallersAct(t) && NameOf(prefix) == name
    ensures TreeEdges(t, caller, name, Numbers(prefix))
            == [EdgeLine(caller, name, Label(Numbers(prefix)))] + DrawnAll(Calls(Collapse(t), prefix))
    decreases t, 1, 0
  {
    CollapseActs(t);
    if Acts(t) {
      CallEdgesAreCollapsed(t.nodes, t.calls, name, prefix);
    }
  }

  lemma {:induction false} CallEdgesAreCollapsed(
      nodes: map<string, Attributes>, calls: seq<Subcall>, name: string, prefix: Path)
    requires CallersActIn(calls) && NameOf(prefix) == name
    ensures CallEdges(calls, name, Numbers(prefix)) == DrawnAll(CallsOf(nodes, CollapseAll(calls), prefix))
    decreases calls, 0, |calls|
  {
    if calls != [] {
      var c := calls[0].(repeat := 1, request := Collapse(calls[0].request));
      var p := prefix + [HopOf(nodes, c)];
      CollapseHop(nodes, calls[0]);
      NumbersSnoc(prefix, HopOf(nodes, c));
      EdgesAreCollapsedCalls(calls[0].request, name, calls[0].dest, p);
      CallEdgesAreCollapsed(nodes, calls[1..], name, prefix);
      assert CollapseAll(calls)[1..] == CollapseAll(calls[1..]);
      OneTime(Via(nodes, c, prefix));
      DrawnAppend([p], Calls(c.request, p));
      DrawnAppend(Via(nodes, c, prefix), CallsOf(nodes, CollapseAll(calls[1..]), prefix));
    }
  }

  lemma OneTime<X>(s: seq<X>)
    ensures Times(1, s) == s
  {
    assert Times(0, s) == [];
  }

  /** No more calls than edges; as many only if no caller is stopped at its gate. */
  lemma {:induction false} FewerCalls(t: Tree, caller: string, name: string, path: seq<nat>, prefix: Path)
    ensures 1 + |Calls(Collapse(t), prefix)| <= |TreeEdges(t, caller, name, path)|
    ensures 1 + |Calls(Collapse(t), prefix)| == |TreeEdges(t, caller, name, path)| <==> CallersAct(t)
    decreases t, 1, 0
  {
    CollapseActs(t);
    if Acts(t) {
      FewerCallsIn(t.nodes, t.calls, name, path, prefix);
    } else if t.Request? && t.calls != [] {
      SomeEdge(t.calls, name, path);
    }
  }

  lemma SomeEdge(calls: seq<Subcall>, name: string, path: seq<nat>)
    requires calls != []
    ensures |CallEdges(calls, name, path)| > 0
  {
    assert |TreeEdges(calls[0].request, name, calls[0].dest, path + [calls[0].sequence])| > 0;
  }

  lemma {:induction false} FewerCallsIn(
      nodes: map<string, Attributes>, calls: seq<Subcall>, name: string, path: seq<nat>, prefix: Path)
    ensures |CallsOf(nodes, CollapseAll(calls), prefix)| <= |CallEdges(calls, name, path)|
    ensures |CallsOf(nodes, CollapseAll(calls), prefix)| == |CallEdges(calls, name, path)| <==> CallersActIn(calls)
    decreases calls, 0, |calls|
  {
    if calls != [] {
      var c := calls[0].(repeat := 1, request := Collapse(calls[0].request));
      FewerCalls(calls[0].request, name, calls[0].dest, path + [calls[0].sequence], prefix + [HopOf(nodes, c)]);
      FewerCallsIn(nodes, calls[1..], name, path, prefix);
      Cons(c, CollapseAll(calls[1..]));
      OneTime(Via(nodes, c, prefix));
    }
  }

  lemma {:induction false} SameCallsCollapsed(t: Tree, prefix: Path)
    ensures forall p :: p in Calls(t, prefix) <==> p in Calls(Collapse(t), prefix)
    decreases t, 1, 0
  {
    CollapseActs(t);
    if Acts(t) {
      SameCallsOfCollapsed(t.nodes, t.calls, prefix);
    }
  }

  lemma {:induction false} SameCallsOfCollapsed(nodes: map<string, Attributes>, calls: seq<Subcall>, prefix: Path)
    ensures forall p :: p in CallsOf(nodes, calls, prefix) <==> p in CallsOf(nodes, CollapseAll(calls), prefix)
    decreases calls, 0, |calls|
  {
    if calls != [] {
      var c := calls[0].(repeat := 1, request := Collapse(calls[0].request));
      CollapseHop(nodes, calls[0]);
      SameCallsCollapsed(calls[0].request, prefix + [HopOf(nodes, c)]);
      SameCallsOfCollapsed(nodes, calls[1..], prefix);
      assert CollapseAll(calls)[1..] == CollapseAll(calls[1..]);
      TimesHas(Repetitions(calls[0].repeat), Via(nodes, calls[0], prefix));
      TimesHas(1, Via(nodes, c, prefix));
      assert forall p :: p in Via(nodes, calls[0], prefix) <==> p in Via(nodes, c, prefix);
    }
  }

  lemma {:induction false} TimesHas<X>(n: nat, s: seq<X>)
    ensures n > 0 ==> forall x :: x in Times(n, s) <==> x in s
  {
    if n > 1 {
      TimesHas(n - 1, s);
    } else if n == 1 {
      OneTime(s);
    }
  }

  /**
   Lint agrees with the application, for all ways of breaking ties on either side: a call is made if
   and only if it is a call of the tree with repetitions collapsed, and the edges drawn are the
   input's own and one for each of these calls, exactly when every request that makes calls passes
   its gate.
   */
  lemma LintAgreesWithFleet(text: string, w: Walk, run: Run)
    requires ValidWalk(text, w) && ValidRun(text, run)
    ensures forall p :: p in Log(text, run, []) <==> p in Calls(Collapse(HopTree(text)), [])
    ensures multiset(Edges(Lines(text, "Source", "TopNode", [], w)))
            == multiset([Drawn([])] + DrawnAll(Calls(Collapse(HopTree(text)), [])))
            <==> CallersAct(HopTree(text))
  {
    CallsAreCollapsed(text, run);
    LintDrawsTheTree(text, "Source", "TopNode", [], w);
    DrawnOrFewer(HopTree(text));
  }

  lemma CallsAreCollapsed(text: string, run: Run)
    requires ValidRun(text, run)
    ensures forall p :: p in Log(text, run, []) <==> p in Calls(Collapse(HopTree(text)), [])
  {
    EveryRunMakesTheCalls(text, run, []);
    SameCallsCollapsed(HopTree(text), []);
    Members(Log(text, run, []), Calls(HopTree(text), []));
  }

  lemma DrawnOrFewer(t: Tree)
    ensures multiset(TreeEdges(t, "Source", "TopNode", [])) == multiset([Drawn([])] + DrawnAll(Calls(Collapse(t), [])))
            <==> CallersAct(t)
  {
    var edges, calls := TreeEdges(t, "Source", "TopNode", []), Calls(Collapse(t), []);
    FewerCalls(t, "Source", "TopNode", [], []);
    assert |multiset(edges)| == |edges| && |multiset([Drawn([])] + DrawnAll(calls))| == 1 + |calls|;
    if CallersAct(t) {
      EdgesAreCollapsedCalls(t, "Source", "TopNode", []);
      assert Label([]) == "1";
    }
  }

  /** On well-formed documents both follow the document. */
  lemma LintDrawsTheDocument(doc: Document, w: Walk)
    requires SoundDocument(doc) && ValidWalk(Print(doc), w)
    ensures multiset(Edges(Lines(Print(doc), "Source", "TopNode", [], w)))
            == multiset(TreeEdges(Meaning(doc), "Source", "TopNode", []))
    ensures multiset(AllWarnings(Print(doc), w)) == multiset(TreeWarnings(Meaning(doc)))
  {
    LintDrawsTheTree(Print(doc), "Source", "TopNode", [], w);
    WarningsAddUp(Print(doc), w);
    HopsRebuildTheTree(doc);
  }
}
