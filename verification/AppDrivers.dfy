/** The driver of the HTTP application, src/fidi_app_driver.cc. */
module AppDrivers {
  import opened Lexical
  import opened Scanner
  import opened FlexLexer
  import opened Grammar
  import opened Actions
  import opened NodeGlob
  import opened Hops
  import opened Fleet
  import opened Numbers
  import opened Sanity
  import opened Heap
  import opened Scheduler
  import opened Drivers
  import opened Parsers
  import opened TaskManager
  import Sequences

  /** The static members of the application driver; times are microseconds of the steady clock. */
  class Health {
    var healthy: bool
    var unresponsiveUntil: int

    constructor (now: int)
      ensures healthy && unresponsiveUntil == now
    {
      healthy, unresponsiveUntil := true, now;
    }
  }

  // ---------- what Execute does, as functions of the parsed request ----------

  function Until(top: Attributes, now: int, until: int): int {
    var sec, usec := LongOf(top, "unresponsive_for_sec"), LongOf(top, "unresponsive_for_usec");
    if sec > 0 || usec > 0 then now + sec * 1000000 + usec else until
  }

  function Healthy(top: Attributes, healthy: bool): bool {
    if "healthy" in top then top["healthy"] == "true" else healthy
  }

  class AppDriver {
    const driver: Driver
    const health: Health

    constructor (health: Health)
      ensures this.health == health && fresh(driver) && driver.Valid()
      ensures driver.view == EMPTY && driver.nerrors == 0
    {
      var d := new Driver();
      this.driver := d;
      this.health := health;
    }

    /** Scanner, parser and driver on a whole text. */
    method ParseHelper(text: string)
      requires driver.Valid() && driver.view == EMPTY
      modifies driver
      ensures driver.Valid()
      ensures match Instance(text)
              case None => driver.nerrors > 0
              case Some(st) => driver.nerrors == 0 && driver.view == st
    {
      driver.nerrors := 0;
      var scanner := new FidiFlexLexer(text);
      var parser := new Parser(scanner, driver);
      var ok := parser.Parse();
    }

    method GetUrl(nodeName: string) returns (url: string)
      requires Sanity.GetUrl(driver.nodes, nodeName).Some?
      ensures Some(url) == Sanity.GetUrl(driver.nodes, nodeName)
    {
      var attrs := driver.nodes[nodeName];
      if "url" in attrs {
        url := attrs["url"];
      } else {
        url := "http://";
        url := url + attrs["hostname"] + ":" + attrs["port"];
        if "path" in attrs {
          url := url + attrs["path"];
        } else {
          url := url + "/fidi";
        }
      }
    }

    method IsResponsive(now: int) returns (responsive: bool)
      ensures responsive <==> now > health.unresponsiveUntil
    {
      var limit := health.unresponsiveUntil;
      responsive := now > limit;
    }

    method GetHealth() returns (healthy: bool)
      ensures healthy == health.healthy
    {
      healthy := health.healthy;
    }

    /**
     Called on a request that passed the gate.  `now` is the clock when the unresponsive window is
     set.  An exception that escapes is reported as `threw`.
     */
    method Execute(now: int) returns (threw: bool, calls: seq<ManagerCall>)
      requires driver.Valid() && driver.destinations == Names(driver.view.edges)
      requires forall d | d in driver.destinations :: Sanity.GetUrl(driver.nodes, d).Some?
      requires CheckedFieldsDefined(driver.topAttributes)
      modifies driver`edgeAttributes, health
      ensures threw <==> !WindowDefined(driver.view.top)
      ensures threw ==> calls == [] && unchanged(driver) && unchanged(health)
      ensures !threw ==>
                && driver.edgeAttributes == [] && Executed(driver.view, calls) && Scheduled(driver.view, calls)
                && health.healthy == Healthy(driver.view.top, old(health.healthy))
                && health.unresponsiveUntil == Until(driver.view.top, now, old(health.unresponsiveUntil))
    {
      threw := SetWindow(now);
      calls := [];
      if !threw {
        calls := ExecuteCalls();
      }
    }

    /** Everything behind the prologue of `Execute`. */
    method ExecuteCalls() returns (calls: seq<ManagerCall>)
      requires driver.Valid() && driver.destinations == Names(driver.view.edges)
      requires forall d | d in driver.destinations :: Sanity.GetUrl(driver.nodes, d).Some?
      modifies driver`edgeAttributes, health`healthy
      ensures driver.edgeAttributes == [] && Executed(driver.view, calls) && Scheduled(driver.view, calls)
      ensures health.healthy == Healthy(driver.view.top, old(health.healthy))
    {
      hide LongOf, Sanity.GetUrl, Executed, Scheduled;
      forall e | e in driver.view.edges
        ensures Sanity.GetUrl(driver.nodes, e.name).Some?
      {
        var i :| 0 <= i < |driver.view.edges| && driver.view.edges[i] == e;
        assert driver.view.edges[i].name in Names(driver.view.edges);
      }
      calls := MakeCalls(LongOf(driver.topAttributes, "timeout_sec"), LongOf(driver.topAttributes, "timeout_usec"));
      ExecutedIsScheduled(driver.view, calls);
      if "healthy" in driver.topAttributes {
        health.healthy := driver.topAttributes["healthy"] == "true";
      }
    }

    /** The two unresponsive_for attributes. */
    method SetWindow(now: int) returns (threw: bool)
      modifies health`unresponsiveUntil
      ensures threw <==> !WindowDefined(driver.topAttributes)
      ensures health.unresponsiveUntil == if threw then old(health.unresponsiveUntil)
                                          else Until(driver.topAttributes, now, old(health.unresponsiveUntil))
    {
      var top := driver.topAttributes;
      if "unresponsive_for_sec" in top && !Stol(top["unresponsive_for_sec"]).Converted? {
        return true;
      }
      if "unresponsive_for_usec" in top && !Stol(top["unresponsive_for_usec"]).Converted? {
        return true;
      }
      threw := false;
      var sec, usec := LongOf(top, "unresponsive_for_sec"), LongOf(top, "unresponsive_for_usec");
      if sec > 0 || usec > 0 {
        health.unresponsiveUntil := now + sec * 1000000 + usec;
      }
    }

    /** What the loops can rely on while the queue shrinks. */
    ghost predicate Draining(st: State, timeoutSec: int, timeoutUsec: int, order: seq<EdgeDetails>)
      reads driver
    {
      && driver.nodes == st.nodes && driver.nodeGlob == st.glob
      && timeoutSec == LongOf(st.top, "timeout_sec") && timeoutUsec == LongOf(st.top, "timeout_usec")
      && (forall e | e in st.edges :: Sanity.GetUrl(st.nodes, e.name).Some?)
      && Drained(st, order, driver.edgeAttributes)
    }

    /** The drain loops: groups of equal sequence number, with a join after each. */
    method MakeCalls(timeoutSec: int, timeoutUsec: int) returns (calls: seq<ManagerCall>)
      requires driver.Valid()
      requires Draining(driver.view, timeoutSec, timeoutUsec, [])
      modifies driver`edgeAttributes
      ensures driver.edgeAttributes == []
      ensures Executed(driver.view, calls)
    {
      ghost var order: seq<EdgeDetails> := [];
      calls := [];
      hide LongOf, Sanity.GetUrl, CallsFor, Script;
      NothingCalled(driver.view);
      while driver.edgeAttributes != []
        invariant Draining(driver.view, timeoutSec, timeoutUsec, order)
        invariant calls == CallsFor(driver.view, FullScript(order))
        invariant order != [] && driver.edgeAttributes != [] ==> Last(order) < driver.edgeAttributes[0].sequence
        decreases |driver.edgeAttributes|
      {
        var sequence := driver.edgeAttributes[0].sequence;
        OpensGroup(order, sequence);
        calls, order := MakeGroup(sequence, timeoutSec, timeoutUsec, calls, driver.view, order);
        CallsSnoc(driver.view, Script(order), Join);
        calls := calls + [JoinTasks];
      }
      assert multiset(order) == multiset(driver.view.edges);
    }

    /** The inner loop: every edge with the given sequence number. */
    method MakeGroup(sequence: nat, timeoutSec: int, timeoutUsec: int, before: seq<ManagerCall>,
                     ghost st: State, ghost done: seq<EdgeDetails>)
        returns (calls: seq<ManagerCall>, ghost order: seq<EdgeDetails>)
      requires Draining(st, timeoutSec, timeoutUsec, done)
      requires driver.edgeAttributes != [] && driver.edgeAttributes[0].sequence == sequence
      requires before == CallsFor(st, Script(done) + JoinBefore(done, sequence))
      modifies driver`edgeAttributes
      ensures Draining(st, timeoutSec, timeoutUsec, order) && order != [] && Last(order) == sequence
      ensures calls == CallsFor(st, Script(order))
      ensures |driver.edgeAttributes| < |old(driver.edgeAttributes)|
      ensures driver.edgeAttributes != [] ==> sequence < driver.edgeAttributes[0].sequence
    {
      hide LongOf, Sanity.GetUrl, Drained, CallsFor, Script;
      calls, order := before, done;
      ghost var started := false;
      while driver.edgeAttributes != [] && sequence == driver.edgeAttributes[0].sequence
        invariant Draining(st, timeoutSec, timeoutUsec, order)
        invariant started ==> order != [] && Last(order) == sequence
        invariant started ==> |driver.edgeAttributes| < |old(driver.edgeAttributes)|
        invariant !started ==> driver.edgeAttributes == old(driver.edgeAttributes)
        invariant calls == CallsFor(st, Script(order) + JoinBefore(order, sequence))
        decreases |driver.edgeAttributes|
      {
        calls, order := MakeTop(timeoutSec, timeoutUsec, calls, st, order);
        InsideGroup(order);
        started := true;
      }
      InsideGroup(order);
      AfterGroup(st, order, driver.edgeAttributes);
    }

    /** The body of the inner loop: all copies of the top edge, then `pop`. */
    method MakeTop(timeoutSec: int, timeoutUsec: int, before: seq<ManagerCall>,
                   ghost st: State, ghost done: seq<EdgeDetails>)
        returns (calls: seq<ManagerCall>, ghost order: seq<EdgeDetails>)
      requires Draining(st, timeoutSec, timeoutUsec, done) && driver.edgeAttributes != []
      requires before == CallsFor(st, Script(done) + JoinBefore(done, driver.edgeAttributes[0].sequence))
      modifies driver`edgeAttributes
      ensures order == done + [old(driver.edgeAttributes[0])]
      ensures Draining(st, timeoutSec, timeoutUsec, order)
      ensures calls == CallsFor(st, Script(order))
      ensures |driver.edgeAttributes| < |old(driver.edgeAttributes)|
    {
      var callDetails := driver.edgeAttributes[0];
      assert callDetails in multiset(driver.edgeAttributes);
      assert callDetails in multiset(st.edges);
      calls := MakeCopies(callDetails, timeoutSec, timeoutUsec, before, st,
                          Script(done) + JoinBefore(done, callDetails.sequence));
      ScriptSnoc(done, callDetails);
      order := PopTop(timeoutSec, timeoutUsec, st, done);
    }

    method PopTop(timeoutSec: int, timeoutUsec: int, ghost st: State, ghost done: seq<EdgeDetails>)
        returns (ghost order: seq<EdgeDetails>)
      requires Draining(st, timeoutSec, timeoutUsec, done) && driver.edgeAttributes != []
      modifies driver`edgeAttributes
      ensures order == done + [old(driver.edgeAttributes[0])]
      ensures Draining(st, timeoutSec, timeoutUsec, order)
      ensures |driver.edgeAttributes| < |old(driver.edgeAttributes)|
    {
      DrainedPop(st, done, driver.edgeAttributes);
      order := done + [driver.edgeAttributes[0]];
      driver.edgeAttributes := Pop(driver.edgeAttributes);
    }

    /** All repetitions of one call. */
    method MakeCopies(callDetails: EdgeDetails, timeoutSec: int, timeoutUsec: int, before: seq<ManagerCall>,
                      ghost st: State, ghost script: seq<Event>) returns (calls: seq<ManagerCall>)
      requires driver.nodes == st.nodes && driver.nodeGlob == st.glob
      requires timeoutSec == LongOf(st.top, "timeout_sec") && timeoutUsec == LongOf(st.top, "timeout_usec")
      requires Sanity.GetUrl(st.nodes, callDetails.name).Some?
      requires before == CallsFor(st, script)
      ensures calls == CallsFor(st, script + Starts(callDetails, Copies(callDetails)))
    {
      calls := before;
      var url := GetUrl(callDetails.name);
      var reps := callDetails.repeat;
      if reps < 1 {
        reps := 1;
      }
      assert script + [] == script;
      var i := 1;
      while i <= reps
        invariant 1 <= i <= reps + 1
        invariant calls == CallsFor(st, script + Starts(callDetails, i - 1))
      {
        var taskname := callDetails.name + "_" + Decimal(i);
        CallsForCopy(st, script, callDetails, i);
        var caller := AppCaller(taskname, url, timeoutSec, timeoutUsec, driver.nodeGlob + callDetails.blob);
        calls := calls + [StartTask(caller)];
        i := i + 1;
      }
    }
  }

  // ---------- the queue while it is drained ----------

  ghost predicate Drained(st: State, order: seq<EdgeDetails>, queue: seq<EdgeDetails>) {
    && IsHeap(queue)
    && multiset(order) + multiset(queue) == multiset(st.edges)
    && InSequence(order)
    && forall i, j | 0 <= i < |order| && 0 <= j < |queue| :: order[i].sequence <= queue[j].sequence
  }

  lemma OpensGroup(order: seq<EdgeDetails>, sequence: nat)
    requires order != [] ==> Last(order) < sequence
    ensures FullScript(order) == Script(order) + JoinBefore(order, sequence)
  {
  }

  lemma InsideGroup(order: seq<EdgeDetails>)
    requires order != []
    ensures Script(order) + JoinBefore(order, Last(order)) == Script(order)
  {
  }

  lemma AfterGroup(st: State, order: seq<EdgeDetails>, queue: seq<EdgeDetails>)
    requires Drained(st, order, queue) && order != []
    ensures queue != [] ==> Last(order) <= queue[0].sequence
  {
  }

  lemma DrainedPop(st: State, order: seq<EdgeDetails>, queue: seq<EdgeDetails>)
    requires Drained(st, order, queue) && queue != []
    ensures forall rest: seq<EdgeDetails> | IsHeap(rest) && multiset(rest) == multiset(queue) - multiset{queue[0]} ::
              Drained(st, order + [queue[0]], rest) && |rest| == |queue| - 1
  {
    forall rest: seq<EdgeDetails> | IsHeap(rest) && multiset(rest) == multiset(queue) - multiset{queue[0]}
      ensures Drained(st, order + [queue[0]], rest) && |rest| == |queue| - 1
    {
      assert |multiset(rest)| == |rest| && |multiset(queue)| == |queue|;
      forall j | 0 <= j < |rest|
        ensures queue[0].sequence <= rest[j].sequence
        ensures forall i | 0 <= i < |order| :: order[i].sequence <= rest[j].sequence
      {
        assert rest[j] in multiset(rest) && rest[j] in multiset(queue);
        var k :| 0 <= k < |queue| && queue[k] == rest[j];
        TopIsFirst(queue, k);
      }
    }
  }
}
