/**
 The scheduling protocol of `AppDriver::Execute` (src/fidi_app_driver.cc:169-197) as a state machine:
 the driver drains the queue group by group while started tasks finish at arbitrary moments.
 */
module Scheduler {
  import opened Actions
  import opened Fleet
  import opened Sequences

  /** The `copy`-th call made for an edge. */
  datatype Task = Task(edge: EdgeDetails, copy: nat)

  datatype Event = Start(task: Task) | Finish(task: Task) | Join

  /** Where the driver is: before the outer loop's test, in the inner loop, or starting copies. */
  datatype Phase = Outer | Inner(sequence: nat) | Starting(sequence: nat, index: nat, copy: nat) | Done

  /** `order` is the history of popped edges. */
  datatype Config = Config(
    queue: seq<EdgeDetails>, phase: Phase, running: multiset<Task>, order: seq<EdgeDetails>, log: seq<Event>)

  /** One step of the driver, or of a task. `top` may be any edge that no other comes before. */
  datatype Move =
    | EnterGroup(top: nat) | TakeTop(top: nat) | StartCopy | PopTop | JoinAll | Quit | FinishTask(task: Task)

  function Init(edges: seq<EdgeDetails>): Config {
    Config(edges, Outer, multiset{}, [], [])
  }

  predicate IsTop(queue: seq<EdgeDetails>, i: nat) {
    i < |queue| && forall j | 0 <= j < |queue| :: queue[i].sequence <= queue[j].sequence
  }

  function Copies(e: EdgeDetails): nat {
    Repetitions(e.repeat)
  }

  predicate Enabled(c: Config, m: Move) {
    match m
    case EnterGroup(i) => c.phase.Outer? && IsTop(c.queue, i)
    case Quit => c.phase.Outer? && c.queue == []
    case TakeTop(i) => c.phase.Inner? && IsTop(c.queue, i) && c.queue[i].sequence == c.phase.sequence
    case StartCopy =>
      c.phase.Starting? && c.phase.index < |c.queue| && c.phase.copy <= Copies(c.queue[c.phase.index])
    case PopTop =>
      c.phase.Starting? && c.phase.index < |c.queue| && c.phase.copy > Copies(c.queue[c.phase.index])
    case JoinAll =>
      && c.phase.Inner? && c.running == multiset{}
      && forall i | 0 <= i < |c.queue| :: !(IsTop(c.queue, i) && c.queue[i].sequence == c.phase.sequence)
    case FinishTask(t) => t in c.running
  }

  function Do(c: Config, m: Move): Config
    requires Enabled(c, m)
  {
    match m
    case EnterGroup(i) => c.(phase := Inner(c.queue[i].sequence))
    case Quit => c.(phase := Done)
    case TakeTop(i) => c.(phase := Starting(c.phase.sequence, i, 1))
    case StartCopy =>
      var t := Task(c.queue[c.phase.index], c.phase.copy);
      c.(phase := c.phase.(copy := c.phase.copy + 1), running := c.running + multiset{t}, log := c.log + [Start(t)])
    case PopTop =>
      var i := c.phase.index;
      c.(phase := Inner(c.phase.sequence), queue := Without(c.queue, i), order := c.order + [c.queue[i]])
    case JoinAll => c.(phase := Outer, log := c.log + [Join])
    case FinishTask(t) => c.(running := c.running - multiset{t}, log := c.log + [Finish(t)])
  }

  predicate Legal(c: Config, moves: seq<Move>)
    decreases |moves|
  {
    moves == [] || (Enabled(c, moves[0]) && Legal(Do(c, moves[0]), moves[1..]))
  }

  function After(c: Config, moves: seq<Move>): Config
    requires Legal(c, moves)
    decreases |moves|
  {
    if moves == [] then c else After(Do(c, moves[0]), moves[1..])
  }

  // ---------- reading a log ----------

  function StartedIn(log: seq<Event>): seq<Task> {
    if log == [] then []
    else
      var e := log[|log| - 1];
      StartedIn(log[..|log| - 1]) + (if e.Start? then [e.task] else [])
  }

  function FinishedIn(log: seq<Event>): seq<Task> {
    if log == [] then []
    else
      var e := log[|log| - 1];
      FinishedIn(log[..|log| - 1]) + (if e.Finish? then [e.task] else [])
  }

  /** The driver's own events. */
  function Program(log: seq<Event>): seq<Event> {
    if log == [] then []
    else
      var e := log[|log| - 1];
      Program(log[..|log| - 1]) + (if e.Finish? then [] else [e])
  }

  function Starts(e: EdgeDetails, n: nat): seq<Event> {
    if n == 0 then [] else Starts(e, n - 1) + [Start(Task(e, n))]
  }

  function Last(order: seq<EdgeDetails>): nat
    requires order != []
  {
    order[|order| - 1].sequence
  }

  /** The driver's events for a drain, up to the join of its last group. */
  function Script(order: seq<EdgeDetails>): seq<Event> {
    if order == [] then []
    else
      var before, e := order[..|order| - 1], order[|order| - 1];
      Script(before) + JoinBefore(before, e.sequence) + Starts(e, Copies(e))
  }

  /** The join that ends the group in front of a group with another sequence number. */
  function JoinBefore(order: seq<EdgeDetails>, sequence: nat): seq<Event> {
    if order == [] || Last(order) == sequence then [] else [Join]
  }

  function FullScript(order: seq<EdgeDetails>): seq<Event> {
    Script(order) + (if order == [] then [] else [Join])
  }

  // ---------- the invariant ----------

  /** Tasks of smaller sequence numbers than a task being started have all finished. */
  ghost predicate BarrierAt(log: seq<Event>, j: nat) {
    j < |log| && log[j].Start? ==> OthersFinished(log[..j], log[j].task.edge.sequence)
  }

  predicate RunningIn(c: Config, sequence: nat) {
    forall t | t in c.running :: t.edge.sequence == sequence
  }

  predicate PhaseInv(c: Config) {
    match c.phase
    case Outer =>
      && c.running == multiset{} && Program(c.log) == FullScript(c.order)
      && (c.order != [] ==> forall i | 0 <= i < |c.queue| :: Last(c.order) < c.queue[i].sequence)
    case Done => c.running == multiset{} && Program(c.log) == FullScript(c.order) && c.queue == []
    case Inner(s) =>
      && RunningIn(c, s) && Program(c.log) == Script(c.order) + JoinBefore(c.order, s)
      && InGroup(c, s)
      && ((c.order != [] && Last(c.order) == s) || exists i | 0 <= i < |c.queue| :: c.queue[i].sequence == s)
    case Starting(s, i, copy) =>
      && RunningIn(c, s) && i < |c.queue| && c.queue[i].sequence == s && InGroup(c, s)
      && 1 <= copy <= Copies(c.queue[i]) + 1
      && Program(c.log) == Script(c.order) + JoinBefore(c.order, s) + Starts(c.queue[i], copy - 1)
  }

  predicate InGroup(c: Config, s: nat) {
    && (forall i | 0 <= i < |c.queue| :: s <= c.queue[i].sequence)
    && (forall i | 0 <= i < |c.order| :: c.order[i].sequence <= s)
  }

  ghost predicate Inv(c: Config, edges: seq<EdgeDetails>) {
    && multiset(c.order) + multiset(c.queue) == multiset(edges)
    && InSequence(c.order)
    && PhaseInv(c)
    && LogInv(c)
  }

  ghost predicate LogInv(c: Config) {
    && multiset(StartedIn(c.log)) == multiset(FinishedIn(c.log)) + c.running
    && AllBarriers(c.log)
  }

  ghost predicate AllBarriers(log: seq<Event>) {
    forall j | 0 <= j < |log| :: BarrierAt(log, j)
  }

  ghost predicate OthersFinished(log: seq<Event>, sequence: nat) {
    forall t: Task | t.edge.sequence != sequence ::
      multiset(StartedIn(log))[t] == multiset(FinishedIn(log))[t]
  }

  lemma LogSnoc(log: seq<Event>, e: Event)
    requires AllBarriers(log)
    requires e.Start? ==> OthersFinished(log, e.task.edge.sequence)
    ensures StartedIn(log + [e]) == StartedIn(log) + (if e.Start? then [e.task] else [])
    ensures FinishedIn(log + [e]) == FinishedIn(log) + (if e.Finish? then [e.task] else [])
    ensures Program(log + [e]) == Program(log) + (if e.Finish? then [] else [e])
    ensures AllBarriers(log + [e])
  {
    var l := log + [e];
    assert l[..|log|] == log;
    forall j | 0 <= j < |l|
      ensures BarrierAt(l, j)
    {
      if j < |log| {
        assert BarrierAt(log, j);
        assert l[..j] == log[..j] && l[j] == log[j];
      }
    }
  }

  lemma StartKeepsInv(c: Config, edges: seq<EdgeDetails>)
    requires Inv(c, edges) && Enabled(c, StartCopy)
    ensures Inv(Do(c, StartCopy), edges)
  {
    StartLog(c);
    StartPhase(c);
  }

  lemma StartLog(c: Config)
    requires LogInv(c) && Enabled(c, StartCopy)
    requires RunningIn(c, c.queue[c.phase.index].sequence)
    ensures LogInv(Do(c, StartCopy))
    ensures var t := Task(c.queue[c.phase.index], c.phase.copy);
            Program(c.log + [Start(t)]) == Program(c.log) + [Start(t)]
  {
    var t := Task(c.queue[c.phase.index], c.phase.copy);
    assert OthersFinished(c.log, t.edge.sequence) by {
      assert forall u: Task | u.edge.sequence != t.edge.sequence :: u !in c.running;
    }
    LogSnoc(c.log, Start(t));
    assert multiset(StartedIn(c.log) + [t]) == multiset(StartedIn(c.log)) + multiset{t};
    assert FinishedIn(c.log) + [] == FinishedIn(c.log);
  }

  lemma StartPhase(c: Config)
    requires PhaseInv(c) && Enabled(c, StartCopy)
    requires var t := Task(c.queue[c.phase.index], c.phase.copy);
             Program(c.log + [Start(t)]) == Program(c.log) + [Start(t)]
    ensures PhaseInv(Do(c, StartCopy))
  {
    var s, e, n := c.phase.sequence, c.queue[c.phase.index], c.phase.copy;
    var script := Script(c.order) + JoinBefore(c.order, s);
    assert Starts(e, n) == Starts(e, n - 1) + [Start(Task(e, n))];
    assert script + Starts(e, n - 1) + [Start(Task(e, n))] == script + Starts(e, n);
  }

  lemma ScriptSnoc(order: seq<EdgeDetails>, e: EdgeDetails)
    ensures Script(order + [e]) == Script(order) + JoinBefore(order, e.sequence) + Starts(e, Copies(e))
  {
    assert (order + [e])[..|order|] == order;
  }

  lemma PopKeepsInv(c: Config, edges: seq<EdgeDetails>)
    requires Inv(c, edges) && Enabled(c, PopTop)
    ensures Inv(Do(c, PopTop), edges)
  {
    PopQueue(c);
    PopPhase(c);
    PopSorted(c);
  }

  lemma PopSorted(c: Config)
    requires PhaseInv(c) && InSequence(c.order) && Enabled(c, PopTop)
    ensures InSequence(Do(c, PopTop).order)
  {
    var e := c.queue[c.phase.index];
    assert forall i | 0 <= i < |c.order| :: c.order[i].sequence <= e.sequence;
  }

  lemma PopQueue(c: Config)
    requires Enabled(c, PopTop)
    ensures var c' := Do(c, PopTop);
            multiset(c'.order) + multiset(c'.queue) == multiset(c.order) + multiset(c.queue)
  {
    Remove(c.queue, c.phase.index);
    assert multiset(c.order + [c.queue[c.phase.index]]) == multiset(c.order) + multiset{c.queue[c.phase.index]};
  }

  lemma PopPhase(c: Config)
    requires PhaseInv(c) && Enabled(c, PopTop)
    ensures PhaseInv(Do(c, PopTop))
  {
    var s, i := c.phase.sequence, c.phase.index;
    var e := c.queue[i];
    var c' := Do(c, PopTop);
    Remove(c.queue, i);
    forall j | 0 <= j < |c'.queue|
      ensures s <= c'.queue[j].sequence
    {
      assert c'.queue[j] in c.queue;
    }
    ScriptSnoc(c.order, e);
    assert Script(c'.order) + [] == Script(c'.order);
  }

  lemma JoinKeepsInv(c: Config, edges: seq<EdgeDetails>)
    requires Inv(c, edges) && Enabled(c, JoinAll)
    ensures Inv(Do(c, JoinAll), edges)
  {
    hide PhaseInv, LogInv, Program;
    JoinLog(c);
    JoinPhase(c);
  }

  lemma JoinLog(c: Config)
    requires LogInv(c) && Enabled(c, JoinAll)
    ensures LogInv(Do(c, JoinAll)) && Program(c.log + [Join]) == Program(c.log) + [Join]
  {
    LogSnoc(c.log, Join);
    hide Program, StartedIn, FinishedIn, AllBarriers;
    assert StartedIn(c.log) + [] == StartedIn(c.log) && FinishedIn(c.log) + [] == FinishedIn(c.log);
  }

  lemma JoinPhase(c: Config)
    requires PhaseInv(c) && Enabled(c, JoinAll) && Program(c.log + [Join]) == Program(c.log) + [Join]
    ensures PhaseInv(Do(c, JoinAll))
  {
    hide Program, Script;
    forall i | 0 <= i < |c.queue|
      ensures c.phase.sequence < c.queue[i].sequence
    {
      GroupDone(c, i);
    }
    assert Script(c.order) + [] == Script(c.order);
  }

  /** The inner loop is left when only later groups are queued. */
  lemma GroupDone(c: Config, i: nat)
    requires Enabled(c, JoinAll) && InGroup(c, c.phase.sequence) && i < |c.queue|
    ensures c.phase.sequence < c.queue[i].sequence
  {
    assert c.queue[i].sequence == c.phase.sequence ==> IsTop(c.queue, i);
  }

  lemma FinishKeepsInv(c: Config, t: Task, edges: seq<EdgeDetails>)
    requires Inv(c, edges) && Enabled(c, FinishTask(t))
    ensures Inv(Do(c, FinishTask(t)), edges)
  {
    LogSnoc(c.log, Finish(t));
    assert Program(c.log) + [] == Program(c.log);
    assert multiset(FinishedIn(c.log) + [t]) == multiset(FinishedIn(c.log)) + multiset{t};
    assert StartedIn(c.log) + [] == StartedIn(c.log);
    SamePhase(c, t);
  }

  lemma SamePhase(c: Config, t: Task)
    requires PhaseInv(c) && t in c.running && Program(c.log + [Finish(t)]) == Program(c.log)
    ensures PhaseInv(Do(c, FinishTask(t)))
  {
    hide Program, Script, FullScript, JoinBefore, Starts, Copies;
    var c' := Do(c, FinishTask(t));
    assert forall u | u in c'.running :: u in c.running;
  }

  lemma EnterKeepsInv(c: Config, i: nat, edges: seq<EdgeDetails>)
    requires Inv(c, edges) && Enabled(c, EnterGroup(i))
    ensures Inv(Do(c, EnterGroup(i)), edges)
  {
    EnterPhase(c, i);
  }

  lemma EnterPhase(c: Config, i: nat)
    requires PhaseInv(c) && InSequence(c.order) && Enabled(c, EnterGroup(i))
    ensures PhaseInv(Do(c, EnterGroup(i)))
  {
    assert c.order != [] ==> Last(c.order) < c.queue[i].sequence;
  }

  lemma TakeKeepsInv(c: Config, i: nat, edges: seq<EdgeDetails>)
    requires Inv(c, edges) && Enabled(c, TakeTop(i))
    ensures Inv(Do(c, TakeTop(i)), edges)
  {
    TakePhase(c, i);
  }

  lemma TakePhase(c: Config, i: nat)
    requires PhaseInv(c) && Enabled(c, TakeTop(i))
    ensures PhaseInv(Do(c, TakeTop(i)))
  {
    var script := Script(c.order) + JoinBefore(c.order, c.phase.sequence);
    assert script + [] == script;
    assert Starts(c.queue[i], 0) == [];
  }

  lemma MoveKeepsInv(c: Config, m: Move, edges: seq<EdgeDetails>)
    requires Inv(c, edges) && Enabled(c, m)
    ensures Inv(Do(c, m), edges)
  {
    match m
    case EnterGroup(i) => EnterKeepsInv(c, i, edges);
    case Quit =>
    case TakeTop(i) => TakeKeepsInv(c, i, edges);
    case StartCopy => StartKeepsInv(c, edges);
    case PopTop => PopKeepsInv(c, edges);
    case JoinAll => JoinKeepsInv(c, edges);
    case FinishTask(t) => FinishKeepsInv(c, t, edges);
  }

  lemma {:induction false} RunKeepsInv(c: Config, moves: seq<Move>, edges: seq<EdgeDetails>)
    requires Inv(c, edges) && Legal(c, moves)
    ensures Inv(After(c, moves), edges)
    decreases |moves|
  {
    if moves != [] {
      MoveKeepsInv(c, moves[0], edges);
      RunKeepsInv(Do(c, moves[0]), moves[1..], edges);
    }
  }

  // ---------- safety, for every interleaving ----------

  /**
   Barrier safety: in every run, whenever a task is started, every task started before it with
   another sequence number has finished.
   */
  lemma BarrierSafety(edges: seq<EdgeDetails>, moves: seq<Move>, j: nat, t: Task)
    requires Legal(Init(edges), moves)
    requires var log := After(Init(edges), moves).log;
             j < |log| && log[j].Start? && t.edge.sequence != log[j].task.edge.sequence
    ensures var log := After(Init(edges), moves).log;
            multiset(StartedIn(log[..j]))[t] == multiset(FinishedIn(log[..j]))[t]
  {
    RunKeepsInv(Init(edges), moves, edges);
    assert BarrierAt(After(Init(edges), moves).log, j);
  }

  // ---------- joins stand between groups and nowhere else ----------

  predicate Joined(log: seq<Event>, i: nat, j: nat) {
    j <= |log| && exists k | i < k < j :: log[k] == Join
  }

  /** Two calls have a join between them exactly if their sequence numbers differ. */
  predicate Separated(log: seq<Event>) {
    forall i, j | 0 <= i < j < |log| && log[i].Start? && log[j].Start? ::
      Joined(log, i, j) <==> log[i].task.edge.sequence != log[j].task.edge.sequence
  }

  /** Same, for a call with number `s` that would come next. */
  predicate SeparatedFrom(log: seq<Event>, s: nat) {
    forall i | 0 <= i < |log| && log[i].Start? :: Joined(log, i, |log|) <==> log[i].task.edge.sequence != s
  }

  lemma SeparatedSnoc(log: seq<Event>, t: Task)
    requires Separated(log) && SeparatedFrom(log, t.edge.sequence)
    ensures Separated(log + [Start(t)]) && SeparatedFrom(log + [Start(t)], t.edge.sequence)
  {
    var l := log + [Start(t)];
    forall i, j | 0 <= i < j <= |l| && j >= |log|
      ensures i < |log| ==> (Joined(l, i, j) <==> Joined(log, i, |log|))
    {
      if i < |log| && Joined(log, i, |log|) {
        var k :| i < k < |log| && log[k] == Join;
        assert l[k] == Join;
      }
    }
    forall i, j | 0 <= i < j < |log|
      ensures Joined(l, i, j) <==> Joined(log, i, j)
    {
      assert forall k | i < k < j :: l[k] == log[k];
    }
    assert !Joined(l, |log|, |l|);
  }

  lemma {:induction false} SeparatedStarts(log: seq<Event>, e: EdgeDetails, n: nat)
    requires Separated(log) && SeparatedFrom(log, e.sequence)
    ensures Separated(log + Starts(e, n)) && SeparatedFrom(log + Starts(e, n), e.sequence)
  {
    if n == 0 {
      assert log + [] == log;
    } else {
      SeparatedStarts(log, e, n - 1);
      SeparatedSnoc(log + Starts(e, n - 1), Task(e, n));
      assert log + Starts(e, n) == log + Starts(e, n - 1) + [Start(Task(e, n))];
    }
  }

  predicate StartsUpTo(log: seq<Event>, s: nat) {
    forall i | 0 <= i < |log| && log[i].Start? :: log[i].task.edge.sequence <= s
  }

  lemma SeparatedJoin(log: seq<Event>, last: nat, s: nat)
    requires Separated(log) && StartsUpTo(log, last) && last < s
    ensures Separated(log + [Join]) && SeparatedFrom(log + [Join], s)
  {
    var l := log + [Join];
    forall i, j | 0 <= i < j < |log|
      ensures Joined(l, i, j) <==> Joined(log, i, j)
    {
      assert forall k | i < k < j :: l[k] == log[k];
    }
    assert forall i | 0 <= i < |log| :: Joined(l, i, |l|) by {
      assert l[|log|] == Join;
    }
  }

  lemma {:induction false} StartsSequence(e: EdgeDetails, n: nat)
    ensures StartsUpTo(Starts(e, n), e.sequence)
  {
    if n > 0 {
      StartsSequence(e, n - 1);
    }
  }

  lemma {:induction false} ScriptSeparated(order: seq<EdgeDetails>, s: nat)
    requires InSequence(order) && (order != [] ==> Last(order) <= s)
    ensures var log := Script(order) + JoinBefore(order, s); Separated(log) && SeparatedFrom(log, s)
    ensures Separated(Script(order))
    ensures order != [] ==> StartsUpTo(Script(order), Last(order))
  {
    if order == [] {
      assert Script(order) + JoinBefore(order, s) == [];
    } else {
      var before, e := order[..|order| - 1], order[|order| - 1];
      var log := Script(before) + JoinBefore(before, e.sequence);
      ScriptSeparated(before, e.sequence);
      SeparatedStarts(log, e, Copies(e));
      StartsSequence(e, Copies(e));
      assert Script(order) == log + Starts(e, Copies(e));
      if e.sequence == s {
        assert Script(order) + [] == Script(order);
      } else {
        SeparatedJoin(Script(order), e.sequence, s);
      }
    }
  }

  /**
   The calls of one group are all started with no join between them, and any two calls of different
   groups have one, in every reachable state.
   */
  lemma JoinsSeparateGroups(edges: seq<EdgeDetails>, moves: seq<Move>)
    requires Legal(Init(edges), moves)
    ensures Separated(Program(After(Init(edges), moves).log))
  {
    RunKeepsInv(Init(edges), moves, edges);
    PhaseSeparated(After(Init(edges), moves));
  }

  lemma PhaseSeparated(c: Config)
    requires InSequence(c.order) && PhaseInv(c)
    ensures Separated(Program(c.log))
  {
    match c.phase
    case Inner(s) => ScriptSeparated(c.order, s);
    case Starting(s, i, copy) =>
      ScriptSeparated(c.order, s);
      SeparatedStarts(Script(c.order) + JoinBefore(c.order, s), c.queue[i], copy - 1);
    case _ => FullScriptSeparated(c.order);
  }

  lemma FullScriptSeparated(order: seq<EdgeDetails>)
    requires InSequence(order)
    ensures Separated(FullScript(order))
  {
    if order != [] {
      ScriptSeparated(order, Last(order) + 1);
    }
  }

  // ---------- conservation ----------

  lemma {:induction false} ReadAppend(a: seq<Event>, b: seq<Event>)
    ensures StartedIn(a + b) == StartedIn(a) + StartedIn(b)
  {
    if b == [] {
      assert a + b == a;
    } else {
      var n := |b| - 1;
      assert (a + b)[..|a + b| - 1] == a + b[..n];
      ReadAppend(a, b[..n]);
    }
  }

  lemma {:induction false} ProgramKeepsStarts(log: seq<Event>)
    ensures StartedIn(Program(log)) == StartedIn(log)
  {
    if log != [] {
      var n := |log| - 1;
      ProgramKeepsStarts(log[..n]);
      var last := if log[n].Finish? then [] else [log[n]];
      ReadAppend(Program(log[..n]), last);
      assert last != [] ==> last[..0] == [];
    }
  }

  /** The copies 1 to `n` of an edge. */
  function Tasks(e: EdgeDetails, n: nat): (r: seq<Task>)
    ensures |r| == n && forall i | 0 <= i < n :: r[i] == Task(e, i + 1)
  {
    if n == 0 then [] else Tasks(e, n - 1) + [Task(e, n)]
  }

  lemma {:induction false} StartsAreTasks(e: EdgeDetails, n: nat)
    ensures StartedIn(Starts(e, n)) == Tasks(e, n)
  {
    if n > 0 {
      StartsAreTasks(e, n - 1);
      ReadAppend(Starts(e, n - 1), [Start(Task(e, n))]);
      assert [Start(Task(e, n))][..0] == [];
    }
  }

  lemma JoinStartsNothing(order: seq<EdgeDetails>, s: nat)
    ensures StartedIn(JoinBefore(order, s)) == []
  {
    assert [Join][..0] == [];
  }

  function ScriptTasks(order: seq<EdgeDetails>): seq<Task> {
    if order == [] then []
    else ScriptTasks(order[..|order| - 1]) + Tasks(order[|order| - 1], Copies(order[|order| - 1]))
  }

  lemma {:induction false} ScriptStarts(order: seq<EdgeDetails>)
    ensures StartedIn(Script(order)) == ScriptTasks(order)
  {
    if order != [] {
      var before, e := order[..|order| - 1], order[|order| - 1];
      ScriptStarts(before);
      var join := JoinBefore(before, e.sequence);
      ReadAppend(Script(before), join);
      JoinStartsNothing(before, e.sequence);
      StartsAreTasks(e, Copies(e));
      ReadAppend(Script(before) + join, Starts(e, Copies(e)));
    }
  }

  lemma FullScriptStarts(order: seq<EdgeDetails>)
    ensures StartedIn(FullScript(order)) == ScriptTasks(order)
  {
    ScriptStarts(order);
    ReadAppend(Script(order), [Join]);
    assert [Join][..0] == [];
  }

  lemma {:induction false} TasksCount(e: EdgeDetails, n: nat, t: Task)
    ensures multiset(Tasks(e, n))[t] == if t.edge == e && 1 <= t.copy <= n then 1 else 0
  {
    if n > 0 {
      TasksCount(e, n - 1, t);
      LastCount(Tasks(e, n - 1), Task(e, n), t);
    }
  }

  lemma LastCount<X>(s: seq<X>, x: X, y: X)
    ensures multiset(s + [x])[y] == multiset(s)[y] + (if x == y then 1 else 0)
  {
  }

  lemma {:induction false} ScriptTasksCount(order: seq<EdgeDetails>, t: Task)
    ensures multiset(ScriptTasks(order))[t] == if 1 <= t.copy <= Copies(t.edge) then multiset(order)[t.edge] else 0
  {
    if order != [] {
      var before, e := order[..|order| - 1], order[|order| - 1];
      ScriptTasksCount(before, t);
      TasksCount(e, Copies(e), t);
      Append(ScriptTasks(before), Tasks(e, Copies(e)));
      Append(before, [e]);
      Front(order);
    }
  }

  /**
   Conservation: a complete run has drained the queue in sequence order and started every copy of
   every queued edge exactly once, and all of them have finished.
   */
  lemma Conservation(edges: seq<EdgeDetails>, moves: seq<Move>, t: Task)
    requires Legal(Init(edges), moves) && After(Init(edges), moves).phase.Done?
    ensures var c := After(Init(edges), moves);
            && c.queue == [] && IsDrain(c.order, edges) && Program(c.log) == FullScript(c.order)
            && multiset(StartedIn(c.log))[t] == multiset(FinishedIn(c.log))[t]
            && multiset(StartedIn(c.log))[t]
               == if 1 <= t.copy <= (if t.edge.repeat < 1 then 1 else t.edge.repeat) then multiset(edges)[t.edge] else 0
  {
    RunKeepsInv(Init(edges), moves, edges);
    var c := After(Init(edges), moves);
    ProgramKeepsStarts(c.log);
    FullScriptStarts(c.order);
    ScriptTasksCount(c.order, t);
  }

  // ---------- termination ----------

  function Budget(queue: seq<EdgeDetails>): nat {
    if queue == [] then 0 else 2 * Copies(queue[0]) + 4 + Budget(queue[1..])
  }

  lemma {:induction false} BudgetAppend(a: seq<EdgeDetails>, b: seq<EdgeDetails>)
    ensures Budget(a + b) == Budget(a) + Budget(b)
  {
    if a == [] {
      assert a + b == b;
    } else {
      assert (a + b)[1..] == a[1..] + b;
      BudgetAppend(a[1..], b);
    }
  }

  lemma BudgetMiddle(a: seq<EdgeDetails>, e: EdgeDetails, b: seq<EdgeDetails>)
    ensures Budget(a + ([e] + b)) == Budget(a + b) + 2 * Copies(e) + 4
  {
    BudgetAppend(a, b);
    BudgetAppend(a, [e] + b);
    Cons(e, b);
    hide Copies;
  }

  lemma BudgetWithout(q: seq<EdgeDetails>, i: nat)
    requires i < |q|
    ensures Budget(q) == Budget(Without(q, i)) + 2 * Copies(q[i]) + 4
  {
    BudgetMiddle(q[..i], q[i], q[i + 1..]);
    hide Budget, Copies;
    assert q == q[..i] + ([q[i]] + q[i + 1..]);
  }

  predicate Live(c: Config, s: nat) {
    exists i | 0 <= i < |c.queue| :: c.queue[i].sequence == s
  }

  function Measure(c: Config): int {
    Budget(c.queue) + |c.running| +
    match c.phase
    case Outer => 2
    case Inner(s) => if Live(c, s) then 1 else 3
    case Starting(_, _, copy) => -2 * (copy - 1)
    case Done => 0
  }

  lemma PopShrinks(c: Config)
    requires Enabled(c, PopTop) && c.phase.copy <= Copies(c.queue[c.phase.index]) + 1
    ensures Measure(Do(c, PopTop)) < Measure(c)
  {
    BudgetWithout(c.queue, c.phase.index);
  }

  lemma JoinShrinks(c: Config)
    requires Enabled(c, JoinAll) && InGroup(c, c.phase.sequence)
    ensures Measure(Do(c, JoinAll)) < Measure(c)
  {
    forall i | 0 <= i < |c.queue|
      ensures c.queue[i].sequence != c.phase.sequence
    {
      GroupDone(c, i);
    }
  }

  lemma OtherShrinks(c: Config, m: Move)
    requires Enabled(c, m) && !m.PopTop? && !m.JoinAll?
    ensures Measure(Do(c, m)) < Measure(c)
  {
    match m
    case EnterGroup(i) => assert Live(Do(c, m), c.queue[i].sequence);
    case TakeTop(i) => assert Live(c, c.phase.sequence);
    case FinishTask(t) => assert |c.running - multiset{t}| == |c.running| - 1;
    case _ =>
  }

  lemma MoveShrinks(c: Config, m: Move, edges: seq<EdgeDetails>)
    requires Inv(c, edges) && Enabled(c, m)
    ensures Measure(Do(c, m)) < Measure(c)
  {
    match m
    case PopTop => PopShrinks(c);
    case JoinAll => JoinShrinks(c);
    case _ => OtherShrinks(c, m);
  }

  lemma MeasureIsNat(c: Config, edges: seq<EdgeDetails>)
    requires Inv(c, edges)
    ensures Measure(c) >= 0
  {
    if c.phase.Starting? {
      BudgetWithout(c.queue, c.phase.index);
    }
  }

  lemma {:induction false} MovesAreBounded(c: Config, moves: seq<Move>, edges: seq<EdgeDetails>)
    requires Inv(c, edges) && Legal(c, moves)
    ensures |moves| <= Measure(c)
    decreases |moves|
  {
    if moves == [] {
      MeasureIsNat(c, edges);
    } else {
      MoveShrinks(c, moves[0], edges);
      MoveKeepsInv(c, moves[0], edges);
      MovesAreBounded(Do(c, moves[0]), moves[1..], edges);
    }
  }

  lemma {:induction false} TopExists(queue: seq<EdgeDetails>) returns (i: nat)
    requires queue != []
    ensures IsTop(queue, i)
  {
    if |queue| == 1 {
      i := 0;
    } else {
      i := TopExists(queue[1..]);
      assert forall j | 1 <= j < |queue| :: queue[j] == queue[1..][j - 1];
      i := if queue[0].sequence <= queue[i + 1].sequence then 0 else i + 1;
    }
  }

  /** A driver that is not done can always move, if need be by waiting for a task. */
  lemma CanMove(c: Config, edges: seq<EdgeDetails>) returns (m: Move)
    requires Inv(c, edges) && !c.phase.Done?
    ensures Enabled(c, m)
  {
    match c.phase
    case Outer =>
      if c.queue == [] {
        m := Quit;
      } else {
        var i := TopExists(c.queue);
        m := EnterGroup(i);
      }
    case Starting(_, i, copy) =>
      m := if copy <= Copies(c.queue[i]) then StartCopy else PopTop;
    case Inner(s) =>
      if i :| 0 <= i < |c.queue| && IsTop(c.queue, i) && c.queue[i].sequence == s {
        m := TakeTop(i);
      } else if t :| t in c.running {
        m := FinishTask(t);
      } else {
        m := JoinAll;
      }
  }

  /**
   Termination: no run is longer than its queue allows, and a run that cannot be continued has left
   both loops with an empty queue.
   */
  lemma EveryRunEnds(edges: seq<EdgeDetails>, moves: seq<Move>)
    requires Legal(Init(edges), moves)
    ensures |moves| <= Budget(edges) + 2
    ensures (forall m :: !Enabled(After(Init(edges), moves), m)) ==> After(Init(edges), moves).phase.Done?
  {
    MovesAreBounded(Init(edges), moves, edges);
    RunKeepsInv(Init(edges), moves, edges);
    var c := After(Init(edges), moves);
    if !c.phase.Done? {
      var m := CanMove(c, edges);
    }
  }

  // ---------- bounded parallelism ----------

  /** How many calls the group with sequence number `s` makes. */
  function GroupSize(edges: seq<EdgeDetails>, s: nat): nat {
    if edges == [] then 0
    else
      var e := edges[0];
      (if e.sequence == s then (if e.repeat < 1 then 1 else e.repeat) else 0) + GroupSize(edges[1..], s)
  }

  lemma {:induction false} GroupAppend(a: seq<EdgeDetails>, b: seq<EdgeDetails>, s: nat)
    ensures GroupSize(a + b, s) == GroupSize(a, s) + GroupSize(b, s)
  {
    if a == [] {
      assert a + b == b;
    } else {
      assert (a + b)[1..] == a[1..] + b;
      GroupAppend(a[1..], b, s);
    }
  }

  lemma GroupPop(order: seq<EdgeDetails>, q: seq<EdgeDetails>, i: nat, s: nat)
    requires i < |q|
    ensures GroupSize(order + [q[i]], s) + GroupSize(Without(q, i), s) == GroupSize(order, s) + GroupSize(q, s)
    ensures GroupSize(order + [q[i]], s) == GroupSize(order, s) + (if q[i].sequence == s then Copies(q[i]) else 0)
  {
    GroupAppend(order, [q[i]], s);
    GroupAppend(q[..i], q[i + 1..], s);
    GroupAppend(q[..i], [q[i]] + q[i + 1..], s);
    assert q == q[..i] + ([q[i]] + q[i + 1..]);
    assert ([q[i]] + q[i + 1..])[1..] == q[i + 1..];
    assert [q[i]][1..] == [];
  }

  predicate Bounded(c: Config) {
    match c.phase
    case Inner(s) => |c.running| <= GroupSize(c.order, s)
    case Starting(s, i, copy) => |c.running| <= GroupSize(c.order, s) + copy - 1
    case _ => |c.running| == 0
  }

  ghost predicate SameGroups(c: Config, edges: seq<EdgeDetails>) {
    forall s: nat :: GroupSize(c.order, s) + GroupSize(c.queue, s) == GroupSize(edges, s)
  }

  lemma PopKeepsBound(c: Config, edges: seq<EdgeDetails>)
    requires PhaseInv(c) && Bounded(c) && SameGroups(c, edges) && Enabled(c, PopTop)
    ensures Bounded(Do(c, PopTop)) && SameGroups(Do(c, PopTop), edges)
  {
    var i := c.phase.index;
    forall s: nat
      ensures GroupSize(Do(c, PopTop).order, s) + GroupSize(Do(c, PopTop).queue, s) == GroupSize(edges, s)
    {
      GroupPop(c.order, c.queue, i, s);
    }
    GroupPop(c.order, c.queue, i, c.phase.sequence);
    hide GroupSize, IsTop, Without;
  }

  lemma StartKeepsBound(c: Config)
    requires Bounded(c) && Enabled(c, StartCopy)
    ensures Bounded(Do(c, StartCopy))
  {
    OneMore(c.running, Task(c.queue[c.phase.index], c.phase.copy));
    hide IsTop, GroupSize, Copies;
  }

  lemma FinishKeepsBound(c: Config, t: Task)
    requires Bounded(c) && Enabled(c, FinishTask(t))
    ensures Bounded(Do(c, FinishTask(t)))
  {
    OneLess(c.running, t);
    hide IsTop, GroupSize, Copies;
  }

  lemma CountKeepsBound(c: Config, m: Move)
    requires Bounded(c) && Enabled(c, m) && !m.PopTop?
    ensures Bounded(Do(c, m)) && Do(c, m).order == c.order && Do(c, m).queue == c.queue
  {
    hide IsTop, GroupSize, Copies;
    if m.StartCopy? {
      StartKeepsBound(c);
      hide Bounded;
    } else if m.FinishTask? {
      FinishKeepsBound(c, m.task);
      hide Bounded;
    }
  }

  lemma OneMore<X>(m: multiset<X>, x: X)
    ensures |m + multiset{x}| == |m| + 1
  {
  }

  lemma OneLess<X>(m: multiset<X>, x: X)
    ensures |m - multiset{x}| <= |m|
  {
  }

  lemma MoveKeepsBound(c: Config, m: Move, edges: seq<EdgeDetails>)
    requires Inv(c, edges) && Bounded(c) && SameGroups(c, edges) && Enabled(c, m)
    ensures Bounded(Do(c, m)) && SameGroups(Do(c, m), edges)
  {
    if m.PopTop? {
      PopKeepsBound(c, edges);
    } else {
      CountKeepsBound(c, m);
      hide Do, Bounded, GroupSize;
    }
  }

  lemma {:induction false} RunKeepsBound(c: Config, moves: seq<Move>, edges: seq<EdgeDetails>)
    requires Inv(c, edges) && Bounded(c) && SameGroups(c, edges) && Legal(c, moves)
    ensures Bounded(After(c, moves)) && SameGroups(After(c, moves), edges)
    decreases |moves|
  {
    if moves != [] {
      MoveKeepsBound(c, moves[0], edges);
      MoveKeepsInv(c, moves[0], edges);
      RunKeepsBound(Do(c, moves[0]), moves[1..], edges);
    }
  }

  /** What the current group makes at most; nothing is outstanding between groups. */
  function GroupLimit(c: Config, edges: seq<EdgeDetails>): nat {
    if c.phase.Inner? || c.phase.Starting? then GroupSize(edges, c.phase.sequence) else 0
  }

  /**
   In every reachable state the outstanding calls are calls of the current group, each once; groups of up
   to 1024 calls stay within the thread pool.
   */
  lemma OutstandingIsBounded(edges: seq<EdgeDetails>, moves: seq<Move>)
    requires Legal(Init(edges), moves)
    ensures var c := After(Init(edges), moves); |c.running| <= GroupLimit(c, edges)
    ensures (forall s: nat :: GroupSize(edges, s) <= 1024) ==> |After(Init(edges), moves).running| <= 1024
  {
    RunKeepsInv(Init(edges), moves, edges);
    RunKeepsBound(Init(edges), moves, edges);
    hide Inv, Bounded, SameGroups, GroupSize, After, Legal;
    BoundIsLimit(After(Init(edges), moves), edges);
  }

  lemma BoundIsLimit(c: Config, edges: seq<EdgeDetails>)
    requires Inv(c, edges) && Bounded(c) && SameGroups(c, edges)
    ensures |c.running| <= GroupLimit(c, edges)
  {
    hide LogInv, Program, Script, FullScript, JoinBefore, Starts, RunningIn, InGroup;
    if c.phase.Inner? || c.phase.Starting? {
      var s := c.phase.sequence;
      assert GroupSize(c.order, s) + GroupSize(c.queue, s) == GroupSize(edges, s);
      if c.phase.Starting? {
        GroupPop([], c.queue, c.phase.index, s);
        assert [] + [c.queue[c.phase.index]] == [c.queue[c.phase.index]];
        hide GroupSize;
      }
    }
  }
}
