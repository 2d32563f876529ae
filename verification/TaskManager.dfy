/**
 What `Execute` asks of the task manager (src/fidi_app_driver.cc:168-197, src/fidi_app_caller.h:58-64):
 the calls it makes on it, and what they amount to.
 */
module TaskManager {
  import opened Lexical
  import opened Actions
  import opened Hops
  import opened Fleet
  import opened Numbers
  import opened Sanity
  import opened Scheduler
  import Sums
  import Sequences

  /** What one task is constructed with. */
  datatype AppCaller = AppCaller(taskname: string, url: string, timeoutSec: int, timeoutUsec: int, payload: string)

  /** Calls on the task manager. */
  datatype ManagerCall = StartTask(caller: AppCaller) | JoinTasks

  // ---------- the calls as a function of the order in which the queue is drained ----------

  function LongOf(top: Attributes, key: string): int {
    if key in top && Stol(top[key]).Converted? then Stol(top[key]).n else 0
  }

  /** The task for the `copy`-th repetition of an edge. */
  function CallerOf(st: State, e: EdgeDetails, copy: nat): AppCaller {
    var url := GetUrl(st.nodes, e.name);
    AppCaller(e.name + "_" + Decimal(copy), if url.Some? then url.value else "",
              LongOf(st.top, "timeout_sec"), LongOf(st.top, "timeout_usec"), Payload(st, e))
  }

  function CallFor(st: State, e: Event): seq<ManagerCall> {
    match e
    case Start(t) => [StartTask(CallerOf(st, t.edge, t.copy))]
    case Finish(_) => []
    case Join => [JoinTasks]
  }

  function CallsFor(st: State, script: seq<Event>): seq<ManagerCall> {
    if script == [] then []
    else CallsFor(st, script[..|script| - 1]) + CallFor(st, script[|script| - 1])
  }

  lemma CallsSnoc(st: State, script: seq<Event>, e: Event)
    ensures CallsFor(st, script + [e]) == CallsFor(st, script) + CallFor(st, e)
  {
    assert (script + [e])[..|script|] == script;
  }

  /** The loops of `Execute` were run for some drain of the queue. */
  ghost predicate Executed(st: State, calls: seq<ManagerCall>) {
    exists order :: IsDrain(order, st.edges) && calls == CallsFor(st, FullScript(order))
  }

  lemma NothingCalled(st: State)
    ensures CallsFor(st, FullScript([])) == []
  {
  }

  lemma CallsForCopy(st: State, script: seq<Event>, e: EdgeDetails, i: nat)
    requires i > 0
    ensures CallsFor(st, script + Starts(e, i))
            == CallsFor(st, script + Starts(e, i - 1)) + [StartTask(CallerOf(st, e, i))]
  {
    Sequences.Associate(script, Starts(e, i - 1), [Start(Task(e, i))]);
    CallsSnoc(st, script + Starts(e, i - 1), Start(Task(e, i)));
  }

  // ---------- the tasks of Execute are the tasks of a fleet run ----------

  function Callers(calls: seq<ManagerCall>): seq<AppCaller> {
    if calls == [] then []
    else
      Callers(calls[..|calls| - 1])
      + (if calls[|calls| - 1].StartTask? then [calls[|calls| - 1].caller] else [])
  }

  lemma {:induction false} CallersAppend(a: seq<ManagerCall>, b: seq<ManagerCall>)
    ensures Callers(a + b) == Callers(a) + Callers(b)
  {
    if b == [] {
      assert a + b == a;
    } else {
      assert (a + b)[..|a + b| - 1] == a + b[..|b| - 1];
      CallersAppend(a, b[..|b| - 1]);
    }
  }

  function CallersOf(st: State, tasks: seq<Task>): (r: seq<AppCaller>)
    ensures |r| == |tasks| && forall k | 0 <= k < |r| :: r[k] == CallerOf(st, tasks[k].edge, tasks[k].copy)
  {
    if tasks == [] then []
    else CallersOf(st, tasks[..|tasks| - 1]) + [CallerOf(st, tasks[|tasks| - 1].edge, tasks[|tasks| - 1].copy)]
  }

  lemma {:induction false} CallersOfScript(st: State, script: seq<Event>)
    ensures Callers(CallsFor(st, script)) == CallersOf(st, StartedIn(script))
  {
    if script != [] {
      var n := |script| - 1;
      CallersOfScript(st, script[..n]);
      CallersAppend(CallsFor(st, script[..n]), CallFor(st, script[n]));
      OneCaller(st, script[n]);
      OneStarted(st, StartedIn(script[..n]), script[n]);
    }
  }

  lemma OneStarted(st: State, tasks: seq<Task>, e: Event)
    ensures CallersOf(st, tasks + (if e.Start? then [e.task] else []))
            == CallersOf(st, tasks) + (if e.Start? then [CallerOf(st, e.task.edge, e.task.copy)] else [])
  {
    if e.Start? {
      Sequences.Snoc(tasks, e.task);
    } else {
      assert tasks + [] == tasks;
    }
  }

  lemma OneCaller(st: State, e: Event)
    ensures Callers(CallFor(st, e)) == if e.Start? then [CallerOf(st, e.task.edge, e.task.copy)] else []
  {
    var calls := CallFor(st, e);
    assert calls != [] ==> calls[..0] == [];
  }

  lemma {:induction false} StartedAppend(a: seq<EdgeDetails>, b: seq<EdgeDetails>)
    ensures Started(a + b) == Started(a) + Started(b)
  {
    if a == [] {
      assert a + b == b;
    } else {
      assert (a + b)[1..] == a[1..] + b;
      StartedAppend(a[1..], b);
    }
  }

  lemma {:induction false} ScriptTasksAreStarted(order: seq<EdgeDetails>)
    ensures |ScriptTasks(order)| == |Started(order)|
    ensures forall k | 0 <= k < |Started(order)| :: ScriptTasks(order)[k].edge == Started(order)[k]
  {
    if order != [] {
      var before, e := order[..|order| - 1], order[|order| - 1];
      ScriptTasksAreStarted(before);
      assert order == before + [e];
      StartedAppend(before, [e]);
      assert [e][1..] == [];
      Sums.TimesOfOne(Copies(e), e);
    }
  }

  /** The request bodies and addresses of a series of tasks. */
  predicate Delivers(st: State, callers: seq<AppCaller>, tasks: seq<EdgeDetails>) {
    && |callers| == |tasks|
    && forall k | 0 <= k < |tasks| ::
         callers[k].payload == Payload(st, tasks[k]) && Some(callers[k].url) == Sanity.GetUrl(st.nodes, tasks[k].name)
  }

  lemma CallersDeliver(st: State, copies: seq<Task>, tasks: seq<EdgeDetails>)
    requires |copies| == |tasks| && forall k | 0 <= k < |tasks| :: copies[k].edge == tasks[k]
    requires forall k | 0 <= k < |tasks| :: Sanity.GetUrl(st.nodes, tasks[k].name).Some?
    ensures Delivers(st, CallersOf(st, copies), tasks)
  {
  }

  /** What `Execute` posts, in order, is what the fleet's runs assume of an instance. */
  lemma ExecuteDrivesTheRun(st: State, calls: seq<ManagerCall>)
    requires Executed(st, calls)
    requires forall e | e in st.edges :: Sanity.GetUrl(st.nodes, e.name).Some?
    ensures exists order :: IsDrain(order, st.edges) && Delivers(st, Callers(calls), Started(order))
  {
    var order :| IsDrain(order, st.edges) && calls == CallsFor(st, FullScript(order));
    CallersOfScript(st, FullScript(order));
    FullScriptStarts(order);
    ScriptTasksAreStarted(order);
    StartedAreQueued(order);
    Sequences.Members(order, st.edges);
    var tasks := Started(order);
    forall k | 0 <= k < |tasks|
      ensures Sanity.GetUrl(st.nodes, tasks[k].name).Some?
    {
      assert tasks[k] in tasks && tasks[k] in order;
    }
    CallersDeliver(st, ScriptTasks(order), tasks);
    assert Delivers(st, Callers(calls), tasks);
  }

  // ---------- what the calls amount to, said of the calls themselves ----------

  /** The positions at which tasks are started, in ascending order. */
  ghost predicate StartsAre(calls: seq<ManagerCall>, starts: seq<nat>) {
    && (forall m | 0 <= m < |starts| :: starts[m] < |calls|)
    && (forall m, n | 0 <= m < n < |starts| :: starts[m] < starts[n])
    && forall k: nat | k < |calls| :: calls[k].StartTask? <==> k in starts
  }

  ghost predicate JoinBetween(calls: seq<ManagerCall>, i: nat, j: nat) {
    exists k | i < k < j :: k < |calls| && calls[k] == JoinTasks
  }

  /** A time limit is zero if it is not given, and otherwise the number that is given. */
  ghost predicate IsLimit(top: Attributes, key: string, limit: int) {
    && (key !in top ==> limit == 0)
    && forall n: nat | key in top && top[key] == Decimal(n) && n <= INT_MAX :: limit == n
  }

  /** What a task is constructed with. */
  ghost predicate ForTask(st: State, caller: AppCaller, t: Task) {
    && caller.taskname == t.edge.name + "_" + Decimal(t.copy)
    && Some(caller.url) == GetUrl(st.nodes, t.edge.name)
    && caller.payload == st.glob + t.edge.blob
    && IsLimit(st.top, "timeout_sec", caller.timeoutSec)
    && IsLimit(st.top, "timeout_usec", caller.timeoutUsec)
  }

  /** Each queued edge with copies 1 to its repetition count, or one copy if that is zero. */
  ghost predicate EachAsOftenAsRepeated(st: State, tasks: seq<Task>) {
    forall t: Task ::
      multiset(tasks)[t]
      == if 1 <= t.copy <= (if t.edge.repeat < 1 then 1 else t.edge.repeat) then multiset(st.edges)[t.edge] else 0
  }

  /** The `m`-th task that is started is `tasks[m]`; `starts` says where. */
  ghost predicate Schedule(st: State, calls: seq<ManagerCall>, starts: seq<nat>, tasks: seq<Task>) {
    && StartsAre(calls, starts) && |starts| == |tasks|
    && (forall m | 0 <= m < |tasks| :: ForTask(st, calls[starts[m]].caller, tasks[m]))
    && EachAsOftenAsRepeated(st, tasks)
    && TasksInSequence(tasks)
    && JoinsSeparate(calls, starts, tasks)
    && EndsInJoin(calls)
  }

  ghost predicate TasksInSequence(tasks: seq<Task>) {
    forall m, n | 0 <= m < n < |tasks| :: tasks[m].edge.sequence <= tasks[n].edge.sequence
  }

  /** A join between two tasks exactly if they are of different groups. */
  ghost predicate JoinsSeparate(calls: seq<ManagerCall>, starts: seq<nat>, tasks: seq<Task>)
    requires |starts| == |tasks|
  {
    forall m, n | 0 <= m < n < |tasks| ::
      JoinBetween(calls, starts[m], starts[n]) <==> tasks[m].edge.sequence != tasks[n].edge.sequence
  }

  ghost predicate EndsInJoin(calls: seq<ManagerCall>) {
    calls != [] ==> calls[|calls| - 1] == JoinTasks
  }

  ghost predicate Scheduled(st: State, calls: seq<ManagerCall>) {
    exists starts, tasks :: Schedule(st, calls, starts, tasks)
  }

  // ---------- where the starts are ----------

  ghost predicate NoFinish(script: seq<Event>) {
    forall k | 0 <= k < |script| :: !script[k].Finish?
  }

  lemma {:induction false} StartsDoNotFinish(e: EdgeDetails, n: nat)
    ensures NoFinish(Starts(e, n))
  {
    if n > 0 {
      StartsDoNotFinish(e, n - 1);
    }
  }

  lemma {:induction false} ScriptDoesNotFinish(order: seq<EdgeDetails>)
    ensures NoFinish(Script(order)) && NoFinish(FullScript(order))
  {
    if order != [] {
      var before, e := order[..|order| - 1], order[|order| - 1];
      ScriptDoesNotFinish(before);
      StartsDoNotFinish(e, Copies(e));
      hide Starts, Copies;
      assert Script(order) == Script(before) + JoinBefore(before, e.sequence) + Starts(e, Copies(e));
    }
  }

  lemma {:induction false} CallsAt(st: State, script: seq<Event>)
    requires NoFinish(script)
    ensures |CallsFor(st, script)| == |script|
    ensures forall k | 0 <= k < |script| ::
              CallsFor(st, script)[k]
              == if script[k].Start? then
                   StartTask(CallerOf(st, script[k].task.edge, script[k].task.copy))
                 else
                   JoinTasks
  {
    hide CallerOf;
    if script != [] {
      CallsAt(st, script[..|script| - 1]);
    }
  }

  function StartsAt(script: seq<Event>): seq<nat> {
    if script == [] then []
    else StartsAt(script[..|script| - 1]) + (if script[|script| - 1].Start? then [|script| - 1] else [])
  }

  ghost predicate StartsIn(script: seq<Event>, starts: seq<nat>, tasks: seq<Task>) {
    && |starts| == |tasks|
    && (forall m | 0 <= m < |starts| :: starts[m] < |script| && script[starts[m]] == Start(tasks[m]))
    && (forall m, n | 0 <= m < n < |starts| :: starts[m] < starts[n])
    && forall k: nat | k < |script| :: script[k].Start? <==> k in starts
  }

  lemma {:induction false} StartsAtTasks(script: seq<Event>)
    ensures StartsIn(script, StartsAt(script), StartedIn(script))
  {
    if script != [] {
      var n := |script| - 1;
      StartsAtTasks(script[..n]);
      StartsSnoc(script, StartsAt(script[..n]), StartedIn(script[..n]));
      assert StartsAt(script[..n]) + [] == StartsAt(script[..n]);
      assert StartedIn(script[..n]) + [] == StartedIn(script[..n]);
    }
  }

  lemma StartsSnoc(script: seq<Event>, starts: seq<nat>, tasks: seq<Task>)
    requires script != [] && StartsIn(script[..|script| - 1], starts, tasks)
    ensures var n := |script| - 1;
            if script[n].Start? then StartsIn(script, starts + [n], tasks + [script[n].task])
            else StartsIn(script, starts, tasks)
  {
    var n := |script| - 1;
    assert forall k | 0 <= k < n :: script[..n][k] == script[k];
    if script[n].Start? {
      assert forall k: nat :: k in starts + [n] <==> k in starts || k == n;
    } else {
      assert n !in starts;
    }
  }

  // ---------- the drain loops keep to the schedule ----------

  lemma {:induction false} ScriptTasksUpTo(order: seq<EdgeDetails>, s: nat)
    requires InSequence(order) && (order != [] ==> Last(order) <= s)
    ensures forall m | 0 <= m < |ScriptTasks(order)| :: ScriptTasks(order)[m].edge.sequence <= s
  {
    if order != [] {
      var before, e := order[..|order| - 1], order[|order| - 1];
      ScriptTasksUpTo(before, s);
      hide Copies;
      var front, group := ScriptTasks(before), Tasks(e, Copies(e));
      assert ScriptTasks(order) == front + group;
      assert forall m | 0 <= m < |group| :: group[m].edge == e;
    }
  }

  lemma {:induction false} ScriptTasksInSequence(order: seq<EdgeDetails>)
    requires InSequence(order)
    ensures TasksInSequence(ScriptTasks(order))
  {
    if order != [] {
      var before, e := order[..|order| - 1], order[|order| - 1];
      ScriptTasksInSequence(before);
      ScriptTasksUpTo(before, e.sequence);
      hide Copies;
      var front, group := ScriptTasks(before), Tasks(e, Copies(e));
      assert ScriptTasks(order) == front + group;
      assert forall m | 0 <= m < |group| :: group[m].edge == e;
    }
  }

  lemma LimitIsGiven(top: Attributes, key: string)
    ensures IsLimit(top, key, LongOf(top, key))
  {
    forall n: nat | key in top && top[key] == Decimal(n) && n <= INT_MAX
      ensures LongOf(top, key) == n
    {
      DecimalIsLong(n);
    }
  }

  lemma CallerIsForTask(st: State, t: Task)
    requires GetUrl(st.nodes, t.edge.name).Some?
    ensures ForTask(st, CallerOf(st, t.edge, t.copy), t)
  {
    LimitIsGiven(st.top, "timeout_sec");
    LimitIsGiven(st.top, "timeout_usec");
    hide LongOf, IsLimit, GetUrl;
  }

  lemma CountsAreSpelled(st: State, order: seq<EdgeDetails>)
    requires multiset(order) == multiset(st.edges)
    ensures EachAsOftenAsRepeated(st, ScriptTasks(order))
  {
    forall t: Task
      ensures multiset(ScriptTasks(order))[t]
              == if 1 <= t.copy <= (if t.edge.repeat < 1 then 1 else t.edge.repeat) then
                   multiset(st.edges)[t.edge]
                 else
                   0
    {
      ScriptTasksCount(order, t);
    }
  }

  /** Joins in the script are joins in the calls. */
  lemma JoinsAreJoins(st: State, script: seq<Event>, i: nat, j: nat)
    requires NoFinish(script) && j <= |script|
    ensures JoinBetween(CallsFor(st, script), i, j) <==> Joined(script, i, j)
  {
    CallsAt(st, script);
    hide CallerOf, CallsFor;
    var calls := CallsFor(st, script);
    if k :| i < k < j && k < |calls| && calls[k] == JoinTasks {
      assert script[k] == Join;
    }
    if k :| i < k < j && script[k] == Join {
      assert calls[k] == JoinTasks;
    }
  }

  lemma DrainKeepsJoins(st: State, order: seq<EdgeDetails>, starts: seq<nat>, tasks: seq<Task>, m: nat, n: nat)
    requires InSequence(order) && StartsIn(FullScript(order), starts, tasks) && m < n < |tasks|
    ensures JoinBetween(CallsFor(st, FullScript(order)), starts[m], starts[n])
            <==> tasks[m].edge.sequence != tasks[n].edge.sequence
  {
    var script := FullScript(order);
    ScriptDoesNotFinish(order);
    FullScriptSeparated(order);
    JoinsAreJoins(st, script, starts[m], starts[n]);
    hide FullScript, CallsFor, JoinBetween, Joined;
    assert script[starts[m]].Start? && script[starts[n]].Start?;
  }

  /** A drain that ends, ends in a join. */
  lemma LastIsJoin(st: State, order: seq<EdgeDetails>)
    ensures EndsInJoin(CallsFor(st, FullScript(order)))
  {
    ScriptDoesNotFinish(order);
    CallsAt(st, FullScript(order));
    hide CallsFor, CallerOf, Script;
  }

  lemma DrainStarts(st: State, order: seq<EdgeDetails>, starts: seq<nat>, tasks: seq<Task>)
    requires StartsIn(FullScript(order), starts, tasks)
    ensures StartsAre(CallsFor(st, FullScript(order)), starts)
  {
    ScriptDoesNotFinish(order);
    CallsAt(st, FullScript(order));
    hide CallsFor, CallerOf, FullScript;
  }

  lemma DrainTask(st: State, order: seq<EdgeDetails>, starts: seq<nat>, tasks: seq<Task>, m: nat)
    requires StartsIn(FullScript(order), starts, tasks) && m < |tasks|
    requires GetUrl(st.nodes, tasks[m].edge.name).Some?
    ensures var calls := CallsFor(st, FullScript(order));
            starts[m] < |calls| && calls[starts[m]].StartTask? && ForTask(st, calls[starts[m]].caller, tasks[m])
  {
    ScriptDoesNotFinish(order);
    CallsAt(st, FullScript(order));
    CallerIsForTask(st, tasks[m]);
    hide CallsFor, CallerOf, FullScript, ForTask, GetUrl;
    assert FullScript(order)[starts[m]] == Start(tasks[m]);
  }

  lemma TasksHaveUrls(st: State, order: seq<EdgeDetails>, m: nat)
    requires multiset(order) == multiset(st.edges) && m < |ScriptTasks(order)|
    requires forall e | e in st.edges :: GetUrl(st.nodes, e.name).Some?
    ensures GetUrl(st.nodes, ScriptTasks(order)[m].edge.name).Some?
  {
    var t := ScriptTasks(order)[m];
    ScriptTasksCount(order, t);
    hide ScriptTasks, GetUrl;
    assert t in multiset(ScriptTasks(order));
    assert t.edge in multiset(st.edges);
  }

  lemma DrainJoins(st: State, order: seq<EdgeDetails>, starts: seq<nat>, tasks: seq<Task>)
    requires InSequence(order) && StartsIn(FullScript(order), starts, tasks)
    ensures |starts| == |tasks| && JoinsSeparate(CallsFor(st, FullScript(order)), starts, tasks)
  {
    hide CallsFor, FullScript, JoinBetween;
    forall m, n | 0 <= m < n < |tasks|
      ensures JoinBetween(CallsFor(st, FullScript(order)), starts[m], starts[n])
              <==> tasks[m].edge.sequence != tasks[n].edge.sequence
    {
      DrainKeepsJoins(st, order, starts, tasks, m, n);
    }
  }

  lemma SameStarts(calls: seq<ManagerCall>, script: seq<Event>, starts: seq<nat>, tasks: seq<Task>)
    requires StartsAre(calls, starts) && StartsIn(script, starts, tasks)
    ensures |starts| == |tasks| && forall m | 0 <= m < |tasks| :: starts[m] < |calls| && calls[starts[m]].StartTask?
  {
  }

  lemma DrainIsScheduled(st: State, order: seq<EdgeDetails>, starts: seq<nat>, tasks: seq<Task>)
    requires IsDrain(order, st.edges) && StartsIn(FullScript(order), starts, tasks) && tasks == ScriptTasks(order)
    requires forall e | e in st.edges :: GetUrl(st.nodes, e.name).Some?
    ensures Schedule(st, CallsFor(st, FullScript(order)), starts, tasks)
  {
    hide CallsFor, FullScript, ScriptTasks, GetUrl, ForTask, JoinsSeparate, StartsIn, StartsAre,
         EachAsOftenAsRepeated, TasksInSequence, EndsInJoin, InSequence;
    DrainStarts(st, order, starts, tasks);
    SameStarts(CallsFor(st, FullScript(order)), FullScript(order), starts, tasks);
    forall m | 0 <= m < |tasks|
      ensures ForTask(st, CallsFor(st, FullScript(order))[starts[m]].caller, tasks[m])
    {
      TasksHaveUrls(st, order, m);
      DrainTask(st, order, starts, tasks, m);
    }
    DrainJoins(st, order, starts, tasks);
    CountsAreSpelled(st, order);
    ScriptTasksInSequence(order);
    LastIsJoin(st, order);
  }

  /**
   The calls that `Execute` makes on the task manager: in sequence order it starts copies 1 to
   max(1, repeat) of every queued edge, each with its own name, address, payload and time limits; there
   is a join between two of them if and only if their sequence numbers differ; and a join at the end.
   */
  lemma ExecutedIsScheduled(st: State, calls: seq<ManagerCall>)
    requires Executed(st, calls)
    requires forall e | e in st.edges :: GetUrl(st.nodes, e.name).Some?
    ensures Scheduled(st, calls)
  {
    hide CallsFor, FullScript, StartsAt, StartedIn, ScriptTasks, GetUrl, StartsIn, Schedule, IsDrain;
    var order :| IsDrain(order, st.edges) && calls == CallsFor(st, FullScript(order));
    StartsAtTasks(FullScript(order));
    FullScriptStarts(order);
    DrainIsScheduled(st, order, StartsAt(FullScript(order)), ScriptTasks(order));
  }
}
