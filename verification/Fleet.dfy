/**
 What a request makes the fleet do, when every call is delivered: run by run as the instances
 execute it, and directly from the tree.
 */
module Fleet {
  import opened Lexical
  import opened Actions
  import opened NodeGlob
  import opened Hops
  import opened Layout
  import opened Sanity
  import opened Sums
  import opened Sequences

  /** One call: where it goes and which request its receiver understands. */
  datatype Hop = Hop(dest: string, url: Option<string>, sequence: nat, received: Option<Attributes>)

  /** The chain of calls that leads to a call. */
  type Path = seq<Hop>

  function Repetitions(repeat: nat): nat {
    if repeat < 1 then 1 else repeat
  }

  /** The gate in front of `Execute`, and the conversions that can still stop it. */
  predicate Executes(nodes: map<string, Attributes>, destinations: set<string>, top: Attributes) {
    SanityChecks(nodes, destinations, top) == Checked([]) && ConversionsDefined(top)
  }

  // ---------- the calls of a tree ----------

  function Destinations(calls: seq<Subcall>): set<string> {
    set i | 0 <= i < |calls| :: calls[i].dest
  }

  predicate Acts(t: Tree) {
    t.Request? && Executes(t.nodes, Destinations(t.calls), t.attrs)
  }

  function HopOf(nodes: map<string, Attributes>, c: Subcall): Hop {
    Hop(c.dest, GetUrl(nodes, c.dest), c.sequence, if c.request.Request? then Some(c.request.attrs) else None)
  }

  /** Every call that is made, each as often as it is repeated at its own level. */
  function Calls(t: Tree, prefix: Path): seq<Path>
    decreases t, 1, 0
  {
    if Acts(t) then CallsOf(t.nodes, t.calls, prefix) else []
  }

  function CallsOf(nodes: map<string, Attributes>, calls: seq<Subcall>, prefix: Path): seq<Path>
    decreases calls, 0, |calls|
  {
    if calls == [] then []
    else
      Times(Repetitions(calls[0].repeat), Via(nodes, calls[0], prefix)) + CallsOf(nodes, calls[1..], prefix)
  }

  function Via(nodes: map<string, Attributes>, c: Subcall, prefix: Path): seq<Path>
    decreases c, 0, 0
  {
    var p := prefix + [HopOf(nodes, c)];
    [p] + Calls(c.request, p)
  }

  // ---------- runs ----------

  predicate InSequence(s: seq<EdgeDetails>) {
    forall i, j | 0 <= i < j < |s| :: s[i].sequence <= s[j].sequence
  }

  /** A drain of the queue: every edge once, smaller sequence numbers first, ties in any order. */
  ghost predicate IsDrain(order: seq<EdgeDetails>, edges: seq<EdgeDetails>) {
    multiset(order) == multiset(edges) && InSequence(order)
  }

  /** The tasks started for a drain: each edge as often as it is repeated. */
  function Started(order: seq<EdgeDetails>): seq<EdgeDetails> {
    if order == [] then [] else Times(Repetitions(order[0].repeat), [order[0]]) + Started(order[1..])
  }

  /** What happens at a receiver: nothing, or a drain and what happens at each receiver in turn. */
  datatype Run = Idle | Active(order: seq<EdgeDetails>, replies: seq<Run>)

  ghost predicate ValidRun(text: string, run: Run)
    decreases run
  {
    match Instance(text)
    case None => run.Idle?
    case Some(st) =>
      if !Executes(st.nodes, st.destinations, st.top) then run.Idle?
      else
        && run.Active?
        && IsDrain(run.order, st.edges)
        && ValidReplies(st, Started(run.order), run.replies)
  }

  ghost predicate ValidReplies(st: State, tasks: seq<EdgeDetails>, replies: seq<Run>)
    decreases replies
  {
    && |replies| == |tasks|
    && forall k | 0 <= k < |replies| :: ValidRun(Payload(st, tasks[k]), replies[k])
  }

  function HopVia(st: State, e: EdgeDetails): Hop {
    var receiver := Instance(Payload(st, e));
    Hop(e.name, GetUrl(st.nodes, e.name), e.sequence, if receiver.Some? then Some(receiver.value.top) else None)
  }

  /** The calls made in a run, in the order in which they are started. */
  ghost function Log(text: string, run: Run, prefix: Path): seq<Path>
    requires ValidRun(text, run)
    decreases run, 1, 0
  {
    if run.Idle? then [] else LogOf(Instance(text).value, Started(run.order), run.replies, prefix)
  }

  ghost function LogOf(st: State, tasks: seq<EdgeDetails>, replies: seq<Run>, prefix: Path): seq<Path>
    requires ValidReplies(st, tasks, replies)
    decreases replies, 0, |replies|
  {
    if tasks == [] then []
    else TaskLog(st, tasks[0], replies[0], prefix) + LogOf(st, tasks[1..], replies[1..], prefix)
  }

  ghost function TaskLog(st: State, e: EdgeDetails, reply: Run, prefix: Path): seq<Path>
    requires ValidRun(Payload(st, e), reply)
    decreases reply, 2, 0
  {
    var p := prefix + [HopVia(st, e)];
    [p] + Log(Payload(st, e), reply, p)
  }

  // ---------- every run makes the calls of the tree ----------

  /** The calls behind one started task. */
  ghost function TaskCalls(st: State, e: EdgeDetails, prefix: Path): multiset<Path> {
    var p := prefix + [HopVia(st, e)];
    multiset([p] + Calls(HopTree(Payload(st, e)), p))
  }

  lemma ViaIsTask(text: string, e: EdgeDetails, prefix: Path)
    requires Instance(text).Some? && e in Instance(text).value.edges
    ensures var st := Instance(text).value;
            TaskCalls(st, e, prefix) == multiset(Via(st.nodes, HopCall(text, e), prefix))
  {
  }

  lemma {:induction false} CallsAreTasks(text: string, edges: seq<EdgeDetails>, prefix: Path)
    requires Instance(text).Some? && forall e | e in edges :: e in Instance(text).value.edges
    ensures var st := Instance(text).value;
            multiset(CallsOf(st.nodes, HopCalls(text, edges), prefix))
            == SumOver(e => TaskCalls(st, e, prefix), Started(edges))
  {
    if edges != [] {
      var st, e := Instance(text).value, edges[0];
      var f := e => TaskCalls(st, e, prefix);
      var via := Via(st.nodes, HopCall(text, e), prefix);
      CallsAreTasks(text, edges[1..], prefix);
      ViaIsTask(text, e, prefix);
      SumTimes(f, Repetitions(e.repeat), e, via);
      SumAppend(f, Times(Repetitions(e.repeat), [e]), Started(edges[1..]));
      assert HopCalls(text, edges)[1..] == HopCalls(text, edges[1..]);
    }
  }

  lemma {:induction false} StartedPermutation<X>(
      f: EdgeDetails -> multiset<X>, a: seq<EdgeDetails>, b: seq<EdgeDetails>)
    requires multiset(a) == multiset(b)
    ensures SumOver(f, Started(a)) == SumOver(f, Started(b))
  {
    var g := (e: EdgeDetails) => SumOver(f, Times(Repetitions(e.repeat), [e]));
    StartedSum(f, g, a);
    StartedSum(f, g, b);
    SumPermutation(g, a, b);
  }

  lemma {:induction false} StartedSum<X>(
      f: EdgeDetails -> multiset<X>, g: EdgeDetails -> multiset<X>, s: seq<EdgeDetails>)
    requires forall e :: g(e) == SumOver(f, Times(Repetitions(e.repeat), [e]))
    ensures SumOver(f, Started(s)) == SumOver(g, s)
  {
    if s != [] {
      StartedSum(f, g, s[1..]);
      SumAppend(f, Times(Repetitions(s[0].repeat), [s[0]]), Started(s[1..]));
    }
  }

  /**
   Schedule independence, for every input: however the instances break ties, the calls made are
   those of the tree the input stands for.
   */
  lemma {:induction false} EveryRunMakesTheCalls(text: string, run: Run, prefix: Path)
    requires ValidRun(text, run)
    ensures multiset(Log(text, run, prefix)) == multiset(Calls(HopTree(text), prefix))
    decreases run, 1, 0
  {
    match Instance(text)
    case None =>
    case Some(st) =>
      ActsLikeState(text);
      if run.Active? {
        var f := e => TaskCalls(st, e, prefix);
        LogIsSum(st, Started(run.order), run.replies, prefix);
        StartedPermutation(f, run.order, st.edges);
        CallsAreTasks(text, st.edges, prefix);
      }
  }

  lemma {:induction false} LogIsSum(st: State, tasks: seq<EdgeDetails>, replies: seq<Run>, prefix: Path)
    requires ValidReplies(st, tasks, replies)
    ensures multiset(LogOf(st, tasks, replies, prefix)) == SumOver(e => TaskCalls(st, e, prefix), tasks)
    decreases replies, 0, |replies|
  {
    if tasks != [] {
      var head := TaskLog(st, tasks[0], replies[0], prefix);
      var tail := LogOf(st, tasks[1..], replies[1..], prefix);
      TaskLogIsCalls(st, tasks[0], replies[0], prefix);
      LogIsSum(st, tasks[1..], replies[1..], prefix);
      assert multiset(head + tail) == multiset(head) + multiset(tail);
    }
  }

  lemma {:induction false} TaskLogIsCalls(st: State, e: EdgeDetails, reply: Run, prefix: Path)
    requires ValidRun(Payload(st, e), reply)
    ensures multiset(TaskLog(st, e, reply, prefix)) == TaskCalls(st, e, prefix)
    decreases reply, 2, 0
  {
    var p := prefix + [HopVia(st, e)];
    EveryRunMakesTheCalls(Payload(st, e), reply, p);
  }

  /** The gate at an instance is the gate of its tree. */
  lemma ActsLikeState(text: string)
    requires Instance(text).Some?
    ensures var st := Instance(text).value;
            Acts(HopTree(text)) <==> Executes(st.nodes, st.destinations, st.top)
  {
    var st := Instance(text).value;
    DestinationsAreEdgeNames(Grammar.Parse(Scanner.Scan(Scanner.Initial, text)).value);
    HopCallsNames(text, st.edges);
    assert Destinations(HopCalls(text, st.edges)) == Names(st.edges);
  }

  lemma {:induction false} HopCallsNames(text: string, edges: seq<EdgeDetails>)
    requires Instance(text).Some? && forall e | e in edges :: e in Instance(text).value.edges
    ensures forall i | 0 <= i < |edges| :: HopCalls(text, edges)[i].dest == edges[i].name
  {
    if edges != [] {
      HopCallsNames(text, edges[1..]);
    }
  }

  /**
   Hop-by-hop execution preserves meaning: in every run on a well-formed document, in any layout,
   the fleet makes exactly the calls that the document denotes.
   */
  lemma FleetMakesTheDenotedCalls(doc: Document, run: Run)
    requires SoundDocument(doc) && ValidRun(Print(doc), run)
    ensures multiset(Log(Print(doc), run, [])) == multiset(Calls(Meaning(doc), []))
  {
    EveryRunMakesTheCalls(Print(doc), run, []);
    HopsRebuildTheTree(doc);
  }

  // ---------- runs exist, and end ----------

  function InsertBySequence(e: EdgeDetails, s: seq<EdgeDetails>): seq<EdgeDetails> {
    if s == [] || e.sequence <= s[0].sequence then [e] + s else [s[0]] + InsertBySequence(e, s[1..])
  }

  lemma {:induction false} InsertAdds(e: EdgeDetails, s: seq<EdgeDetails>)
    ensures multiset(InsertBySequence(e, s)) == multiset{e} + multiset(s)
  {
    if s != [] && e.sequence > s[0].sequence {
      InsertAdds(e, s[1..]);
      Append([s[0]], InsertBySequence(e, s[1..]));
      Append([s[0]], s[1..]);
      assert s == [s[0]] + s[1..];
    }
  }

  lemma {:induction false} InsertSorts(e: EdgeDetails, s: seq<EdgeDetails>, low: nat)
    requires InSequence(s) && low <= e.sequence && forall i | 0 <= i < |s| :: low <= s[i].sequence
    ensures var t := InsertBySequence(e, s); InSequence(t) && forall i | 0 <= i < |t| :: low <= t[i].sequence
  {
    if s != [] && e.sequence > s[0].sequence {
      InsertSorts(e, s[1..], s[0].sequence);
    }
  }

  lemma {:induction false} DrainExists(edges: seq<EdgeDetails>) returns (order: seq<EdgeDetails>)
    ensures IsDrain(order, edges)
  {
    if edges == [] {
      order := [];
    } else {
      order := DrainExists(edges[1..]);
      InsertAdds(edges[0], order);
      InsertSorts(edges[0], order, 0);
      order := InsertBySequence(edges[0], order);
      Append([edges[0]], edges[1..]);
      assert edges == [edges[0]] + edges[1..];
    }
  }

  lemma {:induction false} StartedAreQueued(order: seq<EdgeDetails>)
    ensures forall e | e in Started(order) :: e in order
  {
    if order != [] {
      StartedAreQueued(order[1..]);
      TimesOfOne(Repetitions(order[0].repeat), order[0]);
    }
  }

  /** Any drain at the first instance extends to a whole run. */
  lemma {:induction false} RunExtends(text: string, order: seq<EdgeDetails>) returns (run: Run)
    requires Instance(text).Some?
    requires var st := Instance(text).value;
             Executes(st.nodes, st.destinations, st.top) && IsDrain(order, st.edges)
    ensures ValidRun(text, run) && run.Active? && run.order == order
    decreases Nuls(text), Weight(text), 1
  {
    StartedAreQueued(order);
    Members(order, Instance(text).value.edges);
    var replies := RepliesExist(text, Started(order));
    run := Active(order, replies);
  }

  /** The fleet gets through every input. */
  lemma {:induction false} RunExists(text: string) returns (run: Run)
    ensures ValidRun(text, run)
    decreases Nuls(text), Weight(text), 2
  {
    run := Idle;
    match Instance(text)
    case None =>
    case Some(st) =>
      if Executes(st.nodes, st.destinations, st.top) {
        var order := DrainExists(st.edges);
        run := RunExtends(text, order);
      }
  }

  lemma {:induction false} RepliesExist(text: string, tasks: seq<EdgeDetails>) returns (replies: seq<Run>)
    requires Instance(text).Some? && forall e | e in tasks :: e in Instance(text).value.edges
    ensures ValidReplies(Instance(text).value, tasks, replies)
    decreases Nuls(text), Weight(text), 0, |tasks|
  {
    if tasks == [] {
      replies := [];
    } else {
      PayloadIsSmaller(text, tasks[0]);
      var first := RunExists(Payload(Instance(text).value, tasks[0]));
      var rest := RepliesExist(text, tasks[1..]);
      RepliesCons(Instance(text).value, tasks, first, rest);
      replies := [first] + rest;
    }
  }

  lemma RepliesCons(st: State, tasks: seq<EdgeDetails>, first: Run, rest: seq<Run>)
    requires tasks != [] && ValidRun(Payload(st, tasks[0]), first) && ValidReplies(st, tasks[1..], rest)
    ensures ValidReplies(st, tasks, [first] + rest)
  {
    hide ValidRun, Payload;
    var replies := [first] + rest;
    forall k | 0 < k < |tasks|
      ensures ValidRun(Payload(st, tasks[k]), replies[k])
    {
      LaterReply(st, tasks[1..], rest, k - 1);
      assert tasks[k] == tasks[1..][k - 1] && replies[k] == rest[k - 1];
    }
  }

  lemma LaterReply(st: State, tasks: seq<EdgeDetails>, replies: seq<Run>, k: nat)
    requires ValidReplies(st, tasks, replies) && k < |replies|
    ensures ValidRun(Payload(st, tasks[k]), replies[k])
  {
    hide ValidRun, Payload;
  }

  // ---------- how far calls go ----------

  /** No chain of calls is longer than this. */
  function DepthLimit(text: string): nat {
    match Instance(text)
    case None => 0
    case Some(st) => if DefinitionsClosed(text) then Weight(text) else |st.glob| + |PREFIX| + Weight(text)
  }

  ghost predicate Within(paths: seq<Path>, limit: nat) {
    forall p | p in paths :: |p| <= limit
  }

  lemma DepthShrinks(text: string, e: EdgeDetails)
    requires Instance(text).Some? && e in Instance(text).value.edges
    ensures 1 + DepthLimit(Payload(Instance(text).value, e)) <= DepthLimit(text)
  {
    var payload := Payload(Instance(text).value, e);
    EdgesFit(text);
    PayloadIsNulFree(text, e);
    if Instance(payload).Some? {
      NulFreeIsClosed(payload);
    }
    if DefinitionsClosed(text) {
      PayloadWeight(text, e);
    } else {
      ScanTotal(Scanner.Initial, payload);
    }
  }

  lemma {:induction false} CallsAreShort(text: string, prefix: Path)
    ensures Within(Calls(HopTree(text), prefix), |prefix| + DepthLimit(text))
    decreases Nuls(text), Weight(text), 1, 0
  {
    if Acts(HopTree(text)) {
      CallsOfAreShort(text, Instance(text).value.edges, prefix);
    }
  }

  lemma {:induction false} CallsOfAreShort(text: string, edges: seq<EdgeDetails>, prefix: Path)
    requires AllQueued(text, edges)
    ensures Within(CallsOf(Instance(text).value.nodes, HopCalls(text, edges), prefix), |prefix| + DepthLimit(text))
    decreases Nuls(text), Weight(text), 0, |edges|
  {
    if edges != [] {
      var st, c := Instance(text).value, HopCall(text, edges[0]);
      var p := prefix + [HopOf(st.nodes, c)];
      PayloadIsSmaller(text, edges[0]);
      CallsAreShort(Payload(st, edges[0]), p);
      DepthShrinks(text, edges[0]);
      CallsOfAreShort(text, edges[1..], prefix);
      HopCallsHead(text, edges);
      Cons(c, HopCalls(text, edges[1..]));
      TimesIn(Repetitions(c.repeat), Via(st.nodes, c, prefix));
    }
  }

  /** For every input and every run: the chains of calls stay within a limit that one can compute. */
  lemma CallsEnd(text: string, run: Run)
    requires ValidRun(text, run)
    ensures Within(Log(text, run, []), DepthLimit(text))
  {
    CallsAreShort(text, []);
    EveryRunMakesTheCalls(text, run, []);
    Members(Log(text, run, []), Calls(HopTree(text), []));
  }

  // ---------- how often each call is made ----------

  /** Repetitions multiply along a path; equal hops of one request add up. */
  function Count(t: Tree, path: Path): nat
    decreases t, 1, 0
  {
    if path == [] || !Acts(t) then 0 else CountIn(t.nodes, t.calls, path)
  }

  function CountIn(nodes: map<string, Attributes>, calls: seq<Subcall>, path: Path): nat
    requires path != []
    decreases calls, 0, |calls|
  {
    if calls == [] then 0
    else
      (if HopOf(nodes, calls[0]) == path[0] then Repetitions(calls[0].repeat) * CountVia(calls[0], path[1..]) else 0)
      + CountIn(nodes, calls[1..], path)
  }

  /** The call itself, or what lies behind it. */
  function CountVia(c: Subcall, rest: Path): nat
    decreases c, 0, 0
  {
    if rest == [] then 1 else Count(c.request, rest)
  }

  ghost predicate Extends(p: Path, prefix: Path) {
    |prefix| < |p| && p[..|prefix|] == prefix
  }

  lemma {:induction false} CallsExtend(t: Tree, prefix: Path)
    ensures forall p | p in Calls(t, prefix) :: Extends(p, prefix)
    decreases t, 1, 0
  {
    if Acts(t) {
      CallsOfExtend(t.nodes, t.calls, prefix);
    }
  }

  lemma {:induction false} CallsOfExtend(nodes: map<string, Attributes>, calls: seq<Subcall>, prefix: Path)
    ensures forall p | p in CallsOf(nodes, calls, prefix) :: Extends(p, prefix)
    decreases calls, 0, |calls|
  {
    if calls != [] {
      ViaExtends(nodes, calls[0], prefix);
      TimesIn(Repetitions(calls[0].repeat), Via(nodes, calls[0], prefix));
      CallsOfExtend(nodes, calls[1..], prefix);
    }
  }

  lemma {:induction false} ViaExtends(nodes: map<string, Attributes>, c: Subcall, prefix: Path)
    ensures forall p | p in Via(nodes, c, prefix) :: Extends(p, prefix) && p[|prefix|] == HopOf(nodes, c)
    decreases c, 0, 0
  {
    hide Calls, HopOf;
    var next := prefix + [HopOf(nodes, c)];
    CallsExtend(c.request, next);
    forall p | p in Calls(c.request, next)
      ensures Extends(p, prefix) && p[|prefix|] == HopOf(nodes, c)
    {
      assert Extends(p, next);
      assert p[|prefix|] == p[..|next|][|prefix|];
      assert p[..|prefix|] == p[..|next|][..|prefix|];
    }
    assert next[..|prefix|] == prefix;
  }

  lemma TimesIn<X>(n: nat, s: seq<X>)
    ensures forall x | x in Times(n, s) :: x in s
  {
  }

  /**
   The number of times a call is made is the product of the repetitions along its path, summed over
   the ways to reach it.
   */
  lemma {:induction false} CallsAreCounted(t: Tree, prefix: Path, path: Path)
    ensures multiset(Calls(t, prefix))[prefix + path] == Count(t, path)
    decreases t, 1, 0
  {
    hide Executes, CallsOf, CountIn;
    if Acts(t) {
      if path == [] {
        CallsExtend(t, prefix);
        assert prefix + path == prefix;
        assert prefix !in Calls(t, prefix);
      } else {
        CallsOfAreCounted(t.nodes, t.calls, prefix, path);
      }
    }
  }

  lemma {:induction false} CallsOfAreCounted(
      nodes: map<string, Attributes>, calls: seq<Subcall>, prefix: Path, path: Path)
    requires path != []
    ensures multiset(CallsOf(nodes, calls, prefix))[prefix + path] == CountIn(nodes, calls, path)
    decreases calls, 0, |calls|
  {
    if calls != [] {
      ViaIsCounted(nodes, calls[0], prefix, path);
      CallsOfAreCounted(nodes, calls[1..], prefix, path);
      var n, via := Repetitions(calls[0].repeat), Via(nodes, calls[0], prefix);
      CountSum(n, via, CallsOf(nodes, calls[1..], prefix), prefix + path);
    }
  }

  lemma CountSum<X>(n: nat, s: seq<X>, rest: seq<X>, x: X)
    ensures multiset(Times(n, s) + rest)[x] == n * multiset(s)[x] + multiset(rest)[x]
  {
    TimesCount(n, s, x);
    Append(Times(n, s), rest);
  }

  lemma {:induction false} ViaIsCounted(nodes: map<string, Attributes>, c: Subcall, prefix: Path, path: Path)
    requires path != []
    ensures multiset(Via(nodes, c, prefix))[prefix + path]
            == if HopOf(nodes, c) == path[0] then CountVia(c, path[1..]) else 0
    decreases c, 0, 0
  {
    var next, q := prefix + [HopOf(nodes, c)], prefix + path;
    if HopOf(nodes, c) == path[0] {
      assert q == next + path[1..];
      CallsAreCounted(c.request, next, path[1..]);
      HeadCount(next, Calls(c.request, next), path[1..]);
    } else {
      ViaExtends(nodes, c, prefix);
      assert q[|prefix|] == path[0];
      assert q !in Via(nodes, c, prefix);
    }
  }

  lemma HeadCount(next: Path, below: seq<Path>, rest: Path)
    ensures multiset([next] + below)[next + rest] == (if rest == [] then 1 else 0) + multiset(below)[next + rest]
  {
    assert next + rest == next <==> rest == [];
  }

  /** For every run on a well-formed document: how often each call is made. */
  lemma FleetCallCounts(doc: Document, run: Run, path: Path)
    requires SoundDocument(doc) && ValidRun(Print(doc), run)
    ensures multiset(Log(Print(doc), run, []))[path] == Count(Meaning(doc), path)
  {
    FleetMakesTheDenotedCalls(doc, run);
    CallsAreCounted(Meaning(doc), [], path);
    assert [] + path == path;
  }
}
