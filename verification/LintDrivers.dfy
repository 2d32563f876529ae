/** The linter's driver, src/fidi_lint_driver.cc: a recursive walk that writes to a stream. */
module LintDrivers {
  import opened Lexical
  import opened Scanner
  import opened FlexLexer
  import opened Actions
  import opened NodeGlob
  import opened Hops
  import opened Fleet
  import opened Sanity
  import opened Heap
  import opened Labels
  import opened LintWalk
  import opened Drivers
  import opened Sequences
  import opened Parsers
  import opened AppDrivers
  import Ordered

  // ---------- inputs that the linter can walk to the end ----------

  /** Every nested request is in the language, and no conversion throws while checking it. */
  predicate Walkable(t: Tree) {
    && t.Request?
    && SanityChecks(t.nodes, Destinations(t.calls), t.attrs).Checked?
    && forall i | 0 <= i < |t.calls| :: Walkable(t.calls[i].request)
  }

  lemma {:induction false} HopCallsAt(text: string, edges: seq<EdgeDetails>, i: nat)
    requires Instance(text).Some? && forall e | e in edges :: e in Instance(text).value.edges
    requires i < |edges|
    ensures HopCalls(text, edges)[i].request == HopTree(Payload(Instance(text).value, edges[i]))
  {
    if i > 0 {
      HopCallsAt(text, edges[1..], i - 1);
    }
  }

  lemma WalkableCall(text: string, e: EdgeDetails)
    requires Instance(text).Some? && e in Instance(text).value.edges && Walkable(HopTree(text))
    ensures Walkable(HopTree(Payload(Instance(text).value, e)))
  {
    var st := Instance(text).value;
    var i :| 0 <= i < |st.edges| && st.edges[i] == e;
    HopCallsAt(text, st.edges, i);
    assert Walkable(HopTree(text).calls[i].request);
  }

  lemma {:induction false} WalkedIsWalkable(text: string, w: Walk)
    requires ValidWalk(text, w)
    ensures Walkable(HopTree(text))
    decreases w
  {
    var st := Instance(text).value;
    SameDestinations(text);
    forall i | 0 <= i < |st.edges|
      ensures Walkable(HopTree(text).calls[i].request)
    {
      assert st.edges[i] in multiset(w.order);
      var k :| 0 <= k < |w.order| && w.order[k] == st.edges[i];
      WalkedIsWalkable(Payload(st, w.order[k]), w.subs[k]);
      HopCallsAt(text, st.edges, i);
    }
  }

  // ---------- one more call ----------

  lemma {:induction false} SubLinesSnoc(
      st: State, name: string, path: seq<nat>, order: seq<EdgeDetails>, subs: seq<Walk>, e: EdgeDetails, w: Walk)
    requires |order| == |subs|
    ensures SubLines(st, name, path, order + [e], subs + [w])
            == SubLines(st, name, path, order, subs) + FirstLines(st, name, path, e, w)
  {
    if order == [] {
      SubLinesOne(st, name, path, e, w);
    } else {
      SubLinesSnoc(st, name, path, order[1..], subs[1..], e, w);
      SubLinesGrow(st, name, path, order, subs, e, w);
    }
  }

  lemma WrittenSnoc(st: State, name: string, path: seq<nat>, w: Walk, e: EdgeDetails, sub: Walk, head: seq<Line>)
    requires |w.order| == |w.subs|
    ensures head + SubLines(st, name, path, w.order + [e], w.subs + [sub])
            == head + SubLines(st, name, path, w.order, w.subs) + FirstLines(st, name, path, e, sub)
  {
    SubLinesSnoc(st, name, path, w.order, w.subs, e, sub);
    Associate(head, SubLines(st, name, path, w.order, w.subs), FirstLines(st, name, path, e, sub));
  }

  lemma SubLinesGrow(st: State, name: string, path: seq<nat>, order: seq<EdgeDetails>, subs: seq<Walk>,
                     e: EdgeDetails, w: Walk)
    requires |order| == |subs| > 0
    requires SubLines(st, name, path, order[1..] + [e], subs[1..] + [w])
             == SubLines(st, name, path, order[1..], subs[1..]) + FirstLines(st, name, path, e, w)
    ensures SubLines(st, name, path, order + [e], subs + [w])
            == SubLines(st, name, path, order, subs) + FirstLines(st, name, path, e, w)
  {
    SubLinesCons(st, name, path, order, subs);
    SubLinesFirst(st, name, path, order, subs, e, w);
    Carry(SubLines(st, name, path, order + [e], subs + [w]), FirstLines(st, name, path, order[0], subs[0]),
          SubLines(st, name, path, order[1..], subs[1..]), FirstLines(st, name, path, e, w));
  }

  lemma SubLinesFirst(st: State, name: string, path: seq<nat>, order: seq<EdgeDetails>, subs: seq<Walk>,
                      e: EdgeDetails, w: Walk)
    requires |order| == |subs| > 0
    ensures SubLines(st, name, path, order + [e], subs + [w])
            == FirstLines(st, name, path, order[0], subs[0])
               + SubLines(st, name, path, order[1..] + [e], subs[1..] + [w])
  {
    assert (order + [e])[1..] == order[1..] + [e] && (subs + [w])[1..] == subs[1..] + [w];
    SubLinesCons(st, name, path, order + [e], subs + [w]);
  }

  lemma Carry<X>(all: seq<X>, head: seq<X>, tail: seq<X>, last: seq<X>)
    requires all == head + (tail + last)
    ensures all == head + tail + last
  {
  }

  lemma SubLinesOne(st: State, name: string, path: seq<nat>, e: EdgeDetails, w: Walk)
    ensures SubLines(st, name, path, [] + [e], [] + [w])
            == SubLines(st, name, path, [], []) + FirstLines(st, name, path, e, w)
  {
    hide Lines, FirstLines;
    assert [] + [e] == [e] && [] + [w] == [w] && [e][1..] == [] && [w][1..] == [];
    SubLinesCons(st, name, path, [e], [w]);
    assert SubLines(st, name, path, [], []) == [];
  }

  lemma {:induction false} SubWarningsSnoc(st: State, order: seq<EdgeDetails>, subs: seq<Walk>, e: EdgeDetails, w: Walk)
    requires |order| == |subs|
    ensures SubWarnings(st, order + [e], subs + [w]) == SubWarnings(st, order, subs) + AllWarnings(Payload(st, e), w)
  {
    var warnings := AllWarnings(Payload(st, e), w);
    if order == [] {
      assert order + [e] == [e] && subs + [w] == [w] && [e][1..] == [] && [w][1..] == [];
      assert warnings + [] == warnings && [] + warnings == warnings;
    } else {
      Tail(order, [e]);
      Tail(subs, [w]);
      SubWarningsSnoc(st, order[1..], subs[1..], e, w);
      Associate(AllWarnings(Payload(st, order[0]), subs[0]), SubWarnings(st, order[1..], subs[1..]), warnings);
    }
  }

  lemma ValidSubsSnoc(st: State, order: seq<EdgeDetails>, subs: seq<Walk>, e: EdgeDetails, w: Walk)
    requires ValidSubs(st, order, subs) && ValidWalk(Payload(st, e), w)
    ensures ValidSubs(st, order + [e], subs + [w])
  {
  }

  ghost predicate Collected(st: State, order: seq<EdgeDetails>, subs: seq<Walk>, warnings: seq<Warning>) {
    ValidSubs(st, order, subs) && warnings == LocalWarnings(st) + SubWarnings(st, order, subs)
  }

  lemma CollectedSnoc(st: State, order: seq<EdgeDetails>, subs: seq<Walk>, warnings: seq<Warning>,
                      e: EdgeDetails, w: Walk)
    requires Collected(st, order, subs, warnings) && ValidWalk(Payload(st, e), w)
    ensures Collected(st, order + [e], subs + [w], warnings + AllWarnings(Payload(st, e), w))
  {
    ValidSubsSnoc(st, order, subs, e, w);
    SubWarningsSnoc(st, order, subs, e, w);
    Associate(LocalWarnings(st), SubWarnings(st, order, subs), AllWarnings(Payload(st, e), w));
  }

  /** A call that cannot be walked stops the walk of the request that makes it. */
  lemma StopsHere(text: string, e: EdgeDetails)
    requires Instance(text).Some? && e in Instance(text).value.edges
    requires !Walkable(HopTree(Payload(Instance(text).value, e)))
    ensures !Walkable(HopTree(text))
  {
    if Walkable(HopTree(text)) {
      WalkableCall(text, e);
    }
  }

  /** So does a check that throws. */
  lemma ThrowStops(text: string)
    requires Instance(text).Some?
    requires var st := Instance(text).value; SanityChecks(st.nodes, st.destinations, st.top).Threw?
    ensures !Walkable(HopTree(text))
  {
    SameDestinations(text);
  }

  lemma NothingWalked(st: State, queue: seq<EdgeDetails>)
    requires IsHeap(queue) && multiset(queue) == multiset(st.edges)
    ensures Drained(st, [], queue) && Collected(st, [], [], LocalWarnings(st))
  {
    assert LocalWarnings(st) + SubWarnings(st, [], []) == LocalWarnings(st);
  }

  /** A walk to the end is the walk that is specified. */
  lemma WalkIsValid(text: string, w: Walk)
    requires Instance(text).Some?
    requires var st := Instance(text).value;
             && SanityChecks(st.nodes, st.destinations, st.top).Checked?
             && Drained(st, w.order, []) && ValidSubs(st, w.order, w.subs)
    ensures ValidWalk(text, w)
  {
    assert multiset(w.order) + multiset{} == multiset(w.order);
  }

  lemma LinesInParts(text: string, caller: string, name: string, path: seq<nat>, w: Walk, before: seq<Line>)
    requires Instance(text).Some?
    ensures var st := Instance(text).value;
            && AllWarnings(text, w) == LocalWarnings(st) + SubWarnings(st, w.order, w.subs)
            && before + Lines(text, caller, name, path, w)
               == before + Header(caller, st) + OwnLines(caller, name, path, st)
                  + SubLines(st, name, path, w.order, w.subs) + Footer(caller, AllWarnings(text, w))
  {
    var st := Instance(text).value;
    FourParts(before, Header(caller, st), OwnLines(caller, name, path, st),
              SubLines(st, name, path, w.order, w.subs), Footer(caller, AllWarnings(text, w)));
  }

  lemma FourParts<X>(a: seq<X>, b: seq<X>, c: seq<X>, d: seq<X>, e: seq<X>)
    ensures a + (b + c + d + e) == a + b + c + d + e
  {
  }

  // ---------- the objects ----------

  class Stream {
    var lines: seq<Line>

    constructor ()
      ensures lines == []
    {
      lines := [];
    }
  }

  class LintDriver {
    const driver: Driver
    const caller: string
    const name: string
    const globalSequence: string
    var numWarnings: nat
    var warnings: seq<Warning>

    constructor (caller: string, name: string, sequence: string)
      ensures this.caller == caller && this.name == name && this.globalSequence == sequence
      ensures fresh(driver) && driver.Valid() && driver.view == EMPTY && driver.nerrors == 0
    {
      var d := new Driver();
      this.driver := d;
      this.caller, this.name, this.globalSequence := caller, name, sequence;
      this.numWarnings, this.warnings := 0, [];
    }

    method ParseHelper(text: string)
      requires driver.Valid() && driver.view == EMPTY && driver.nerrors == 0
      modifies driver
      ensures driver.Valid()
      ensures match Instance(text)
              case None => driver.nerrors > 0
              case Some(st) => driver.nerrors == 0 && driver.view == st
    {
      var scanner := new FidiFlexLexer(text);
      var parser := new Parser(scanner, driver);
      var ok := parser.Parse();
    }

    /** The walk got this far: these edges are done, with these walks below them. */
    ghost predicate Walking(st: State, order: seq<EdgeDetails>, subs: seq<Walk>)
      reads this, driver
    {
      && driver.nodeGlob == st.glob
      && Drained(st, order, driver.edgeAttributes)
      && Collected(st, order, subs, warnings)
      && numWarnings == |warnings|
    }

    /**
     Writes the graph of the parsed request and of everything nested in it.  `ok` is false if a nested
     request is not in the language or a check throws.
     */
    method Execute(stream: Stream, ghost text: string, ghost path: seq<nat>) returns (ok: bool, ghost w: Walk)
      requires driver.Valid() && Instance(text) == Some(driver.view)
      requires globalSequence == Label(path)
      modifies this, driver, stream
      ensures ok <==> Walkable(HopTree(text))
      ensures ok ==> ValidWalk(text, w)
      ensures ok ==> stream.lines == old(stream.lines) + Lines(text, caller, name, path, w)
      ensures ok ==> warnings == AllWarnings(text, w) && numWarnings == |AllWarnings(text, w)|
      decreases Nuls(text), Weight(text), 3
    {
      hide SanityChecks, Walkable, HopTree, ValidWalk, Lines, Header, OwnLines, SubLines, SubWarnings, Footer;
      w := Walk([], []);
      var outcome := driver.SanityChecks();
      if outcome.Threw? {
        ThrowStops(text);
        return false, w;
      }
      numWarnings, warnings := |outcome.warnings|, outcome.warnings;
      NothingWalked(driver.view, driver.edgeAttributes);
      WriteHead(stream, path);
      ok, w := WalkEdges(stream, text, path);
      if ok {
        WalkIsValid(text, w);
        WalkedIsWalkable(text, w);
        WriteTail(stream);
        LinesInParts(text, caller, name, path, w, old(stream.lines));
      }
    }

    method WriteTail(stream: Stream)
      requires numWarnings == |warnings|
      modifies stream
      ensures stream.lines == old(stream.lines) + Footer(caller, warnings)
    {
      if caller == "Source" {
        stream.lines := stream.lines + [Close];
      }
      if numWarnings != 0 {
        stream.lines := stream.lines + [WarningText(warnings)];
      }
    }

    /** The preamble and nodes at the top level, this request's edge and its attributes. */
    method WriteHead(stream: Stream, ghost path: seq<nat>)
      requires driver.Valid() && globalSequence == Label(path)
      modifies stream
      ensures stream.lines
              == old(stream.lines) + Header(caller, driver.view) + OwnLines(caller, name, path, driver.view)
    {
      if caller == "Source" {
        var nodes := WriteNodes(driver.nodes);
        stream.lines := stream.lines + ([Preamble] + nodes);
      }
      assert old(stream.lines) + [] == old(stream.lines);
      var notes := WriteNotes(driver.topAttributes);
      stream.lines := stream.lines + ([EdgeLine(caller, name, globalSequence)] + notes);
    }

    /** The loops over the queue; every call is handed to `HandleBlob`. */
    method WalkEdges(stream: Stream, ghost text: string, ghost path: seq<nat>) returns (ok: bool, ghost w: Walk)
      requires Instance(text) == Some(driver.view) && globalSequence == Label(path)
      requires Walking(driver.view, [], [])
      modifies this`numWarnings, this`warnings, driver`edgeAttributes, stream
      ensures !ok ==> !Walkable(HopTree(text))
      ensures ok ==> driver.edgeAttributes == [] && Walking(driver.view, w.order, w.subs)
      ensures ok ==> stream.lines == old(stream.lines) + SubLines(driver.view, name, path, w.order, w.subs)
      decreases Nuls(text), Weight(text), 2
    {
      w := Walk([], []);
      ok := true;
      assert stream.lines + [] == stream.lines;
      assert stream.lines == stream.lines + SubLines(driver.view, name, path, [], []);
      hide SubLines, Walkable, Drained, Collected, HopTree;
      while driver.edgeAttributes != []
        invariant Walking(driver.view, w.order, w.subs)
        invariant stream.lines == old(stream.lines) + SubLines(driver.view, name, path, w.order, w.subs)
        decreases |driver.edgeAttributes|
      {
        var currentSequence := driver.edgeAttributes[0].sequence;
        ghost var before := driver.edgeAttributes;
        while driver.edgeAttributes != [] && currentSequence == driver.edgeAttributes[0].sequence
          invariant Walking(driver.view, w.order, w.subs)
          invariant stream.lines == old(stream.lines) + SubLines(driver.view, name, path, w.order, w.subs)
          invariant driver.edgeAttributes == before || |driver.edgeAttributes| < |before|
          decreases |driver.edgeAttributes|
        {
          ok, w := WalkTop(stream, text, path, old(stream.lines), w);
          if !ok {
            return;
          }
        }
      }
    }

    /** One call: extend the label, walk the nested request, add its warnings, pop. */
    method WalkTop(stream: Stream, ghost text: string, ghost path: seq<nat>, ghost head: seq<Line>, ghost w0: Walk)
        returns (ok: bool, ghost w: Walk)
      requires Instance(text) == Some(driver.view) && globalSequence == Label(path)
      requires driver.edgeAttributes != [] && Walking(driver.view, w0.order, w0.subs)
      requires stream.lines == head + SubLines(driver.view, name, path, w0.order, w0.subs)
      modifies this`numWarnings, this`warnings, driver`edgeAttributes, stream
      ensures !ok ==> !Walkable(HopTree(text))
      ensures ok ==> Walking(driver.view, w.order, w.subs)
      ensures ok ==> |driver.edgeAttributes| < |old(driver.edgeAttributes)|
      ensures ok ==> stream.lines == head + SubLines(driver.view, name, path, w.order, w.subs)
      decreases Nuls(text), Weight(text), 1
    {
      hide SubLines, FirstLines, Walkable, ValidWalk, Drained, HopTree, LocalWarnings, SubWarnings, AllWarnings;
      var node := driver.edgeAttributes[0];
      QueuedHere(driver.view, w0.order, driver.edgeAttributes);
      PayloadIsSmaller(text, node);
      ghost var sub;
      ok, sub := WalkBlob(stream, node, path, text);
      w := Walk(w0.order + [node], w0.subs + [sub]);
      if !ok {
        StopsHere(text, node);
        return;
      }
      CollectedSnoc(driver.view, w0.order, w0.subs, old(warnings), node, sub);
      WrittenSnoc(driver.view, name, path, w0, node, sub, head);
      PopTop(w0.order);
    }

    method PopTop(ghost order: seq<EdgeDetails>)
      requires driver.edgeAttributes != [] && Drained(driver.view, order, driver.edgeAttributes)
      modifies driver`edgeAttributes
      ensures Drained(driver.view, order + [old(driver.edgeAttributes[0])], driver.edgeAttributes)
      ensures |driver.edgeAttributes| < |old(driver.edgeAttributes)|
    {
      DrainedPop(driver.view, order, driver.edgeAttributes);
      driver.edgeAttributes := Pop(driver.edgeAttributes);
    }

    /** The new label, the nested request, and the warnings that come back. */
    method WalkBlob(stream: Stream, node: EdgeDetails, ghost path: seq<nat>, ghost text: string)
        returns (ok: bool, ghost sub: Walk)
      requires globalSequence == Label(path) && driver.nodeGlob == driver.view.glob
      requires Smaller(Payload(driver.view, node), text)
      requires numWarnings == |warnings|
      modifies this`numWarnings, this`warnings, stream
      ensures ok <==> Walkable(HopTree(Payload(driver.view, node)))
      ensures ok ==> ValidWalk(Payload(driver.view, node), sub)
      ensures ok ==> stream.lines == old(stream.lines) + FirstLines(driver.view, name, path, node, sub)
      ensures ok ==> warnings == old(warnings) + AllWarnings(Payload(driver.view, node), sub)
      ensures numWarnings == |warnings|
      decreases Nuls(text), Weight(text), 0
    {
      hide Lines, Walkable, ValidWalk, AllWarnings;
      LabelSnoc(path, node.sequence);
      var newSequence := globalSequence + "." + Decimal(node.sequence);
      var count, texts;
      ok, count, texts, sub :=
        HandleBlob(stream, name, node.name, driver.nodeGlob + node.blob, newSequence, path + [node.sequence]);
      if ok && count != 0 {
        numWarnings, warnings := numWarnings + count, warnings + texts;
      }
    }
  }

  lemma QueuedHere(st: State, order: seq<EdgeDetails>, queue: seq<EdgeDetails>)
    requires Drained(st, order, queue) && queue != []
    ensures queue[0] in st.edges
  {
    assert queue[0] in multiset(queue);
    assert queue[0] in multiset(st.edges);
  }

  /** A nested request gets a driver of its own. */
  method HandleBlob(stream: Stream, caller: string, name: string, blob: string, sequenceNumber: string,
                    ghost path: seq<nat>)
      returns (ok: bool, count: nat, texts: seq<Warning>, ghost w: Walk)
    requires sequenceNumber == Label(path)
    modifies stream
    ensures ok <==> Walkable(HopTree(blob))
    ensures ok ==> ValidWalk(blob, w)
    ensures ok ==> stream.lines == old(stream.lines) + Lines(blob, caller, name, path, w)
    ensures ok ==> texts == AllWarnings(blob, w) && count == |texts|
    decreases Nuls(blob), Weight(blob), 4
  {
    count, texts, w := 0, [], Walk([], []);
    var subDriver := new LintDriver(caller, name, sequenceNumber);
    subDriver.ParseHelper(blob);
    if subDriver.driver.nerrors != 0 {
      return false, 0, [], w;
    }
    ok, w := subDriver.Execute(stream, blob, path);
    count, texts := subDriver.numWarnings, subDriver.warnings;
  }

  /** The linter on a whole input. */
  method Lint(text: string) returns (ok: bool, stream: Stream, ghost w: Walk)
    ensures ok <==> Walkable(HopTree(text))
    ensures ok ==> ValidWalk(text, w) && stream.lines == Lines(text, "Source", "TopNode", [], w)
  {
    stream := new Stream();
    w := Walk([], []);
    var driver := new LintDriver("Source", "TopNode", "1");
    driver.ParseHelper(text);
    if driver.driver.nerrors != 0 {
      return false, stream, w;
    }
    ok, w := driver.Execute(stream, text, []);
    assert [] + Lines(text, "Source", "TopNode", [], w) == Lines(text, "Source", "TopNode", [], w);
  }

  method WriteNodes(nodes: map<string, Attributes>) returns (lines: seq<Line>)
    ensures lines == NodeLines(Ordered.SortedKeys(nodes.Keys), nodes)
  {
    lines := [];
    var keys := Ordered.SortedKeys(nodes.Keys);
    for i := 0 to |keys|
      invariant lines == NodeLines(keys[..i], nodes)
    {
      assert keys[i] in keys;
      assert keys[..i + 1] == keys[..i] + [keys[i]];
      NodeLinesSnoc(keys[..i], keys[i], nodes);
      lines := lines + [NodeLine(keys[i], nodes[keys[i]])];
    }
    assert keys[..|keys|] == keys;
  }

  lemma {:induction false} NodeLinesSnoc(keys: seq<string>, k: string, nodes: map<string, Attributes>)
    requires k in nodes
    ensures NodeLines(keys + [k], nodes) == NodeLines(keys, nodes) + [NodeLine(k, nodes[k])]
  {
    if keys == [] {
      assert keys + [k] == [k] && [k][1..] == [];
    } else {
      assert (keys + [k])[1..] == keys[1..] + [k];
      NodeLinesSnoc(keys[1..], k, nodes);
      Associate(if keys[0] in nodes then [NodeLine(keys[0], nodes[keys[0]])] else [],
                NodeLines(keys[1..], nodes), [NodeLine(k, nodes[k])]);
    }
  }

  method WriteNotes(top: Attributes) returns (lines: seq<Line>)
    ensures lines == Notes(Ordered.SortedKeys(top.Keys), top)
  {
    lines := [];
    var keys := Ordered.SortedKeys(top.Keys);
    for i := 0 to |keys|
      invariant lines == Notes(keys[..i], top)
    {
      assert keys[i] in keys;
      assert keys[..i + 1] == keys[..i] + [keys[i]];
      NotesSnoc(keys[..i], keys[i], top);
      lines := lines + [Note(keys[i], top[keys[i]])];
    }
    assert keys[..|keys|] == keys;
  }

  lemma {:induction false} NotesSnoc(keys: seq<string>, k: string, top: Attributes)
    requires k in top
    ensures Notes(keys + [k], top) == Notes(keys, top) + [Note(k, top[k])]
  {
    if keys == [] {
      assert keys + [k] == [k] && [k][1..] == [];
    } else {
      assert (keys + [k])[1..] == keys[1..] + [k];
      NotesSnoc(keys[1..], k, top);
      Associate(if keys[0] in top then [Note(keys[0], top[keys[0]])] else [],
                Notes(keys[1..], top), [Note(k, top[k])]);
    }
  }
}
