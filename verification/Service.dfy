/** One request at an instance: `handleRequest` of src/fidi_request_handler.cc, and what it does to the instance. */
module Service {
  import opened Lexical
  import opened Scanner
  import opened Grammar
  import opened Actions
  import opened NodeGlob
  import opened Numbers
  import opened Sanity
  import opened Accepted
  import opened AppDrivers
  import opened TaskManager
  import Fleet

  /** What becomes of a request. */
  datatype Reply =
    | Dropped
    | Healthz(ok: bool)
    | Failed                             // parse errors or warnings: answered, not executed
    | Escaped                            // an exception left the handler
    | Done(calls: seq<ManagerCall>)

  class RequestHandler {
    const app: AppDriver
    var count: nat

    constructor (health: Health)
      ensures app.health == health && fresh(app) && fresh(app.driver) && count == 0
      ensures app.driver.Valid() && app.driver.view == EMPTY
    {
      var a := new AppDriver(health);
      this.app := a;
      this.count := 0;
    }

    /** `arrival` and `later` are the clock at the two places where it is read. */
    method HandleRequest(path: string, body: string, arrival: int, later: int) returns (reply: Reply)
      requires app.driver.Valid() && app.driver.view == EMPTY
      modifies this`count, app.driver, app.health
      ensures reply.Dropped? <==> arrival <= old(app.health.unresponsiveUntil)
      ensures reply.Dropped? ==> unchanged(this) && unchanged(app.driver) && unchanged(app.health)
      ensures reply.Healthz? <==> !reply.Dropped? && path == "/healthz"
      ensures reply.Healthz? ==> reply.ok == app.health.healthy && unchanged(this) && unchanged(app.health)
      ensures !reply.Dropped? && !reply.Healthz? ==> count == old(count) + 1
      ensures !reply.Dropped? && !reply.Healthz? ==>
                match Gate(body)
                case NoParse => reply.Failed? || reply.Escaped?
                case Refuse => reply.Failed?
                case Abort => reply.Escaped?
                case Run(st) => reply.Done? && Executed(st, reply.calls) && Scheduled(st, reply.calls)
      ensures Instant(app.health.healthy, app.health.unresponsiveUntil)
              == Serve(Instant(old(app.health.healthy), old(app.health.unresponsiveUntil)),
                       Arrival(path, body, arrival, later))
    {
      var responsive := app.IsResponsive(arrival);
      if !responsive {
        return Dropped;
      }
      if path == "/healthz" {
        var ok := app.GetHealth();
        return Healthz(ok);
      }
      count := count + 1;
      reply := HandleBody(body, later);
    }

    /** Parse, check, and execute only if both are clean. */
    method HandleBody(body: string, later: int) returns (reply: Reply)
      requires app.driver.Valid() && app.driver.view == EMPTY
      modifies app.driver, app.health
      ensures match Gate(body)
              case NoParse => reply.Failed? || reply.Escaped?
              case Refuse => reply.Failed?
              case Abort => reply.Escaped?
              case Run(st) => reply.Done? && Executed(st, reply.calls) && Scheduled(st, reply.calls)
      ensures (app.health.healthy, app.health.unresponsiveUntil)
              == if reply.Done?
                 then HealthAfter(body, later, old(app.health.healthy), old(app.health.unresponsiveUntil))
                 else old((app.health.healthy, app.health.unresponsiveUntil))
    {
      hide Instance, SanityChecks, WindowDefined, CheckedFieldsDefined, GetUrl, Executed, Scheduled;
      app.ParseHelper(body);
      var failed := app.driver.nerrors != 0;
      var checks := app.driver.SanityChecks();
      if checks.Threw? {
        return Escaped;
      }
      failed := failed || checks.warnings != [];
      if failed {
        return Failed;
      }
      GateIsOpen(body);
      var threw, calls := app.Execute(later);
      reply := if threw then Escaped else Done(calls);
    }
  }

  // ---------- the gate as a function of the request's text ----------

  datatype Verdict = NoParse | Refuse | Abort | Run(st: State)

  /** Execute only when parsing and the checks are clean, and no conversion throws. */
  function Gate(body: string): Verdict {
    match Instance(body)
    case None => NoParse
    case Some(st) =>
      match SanityChecks(st.nodes, st.destinations, st.top)
      case Threw => Abort
      case Checked(warnings) =>
        if warnings != [] then Refuse else if WindowDefined(st.top) then Run(st) else Abort
  }

  /** What `Execute` needs to know about a request that passed parsing and checks. */
  lemma GateIsOpen(body: string)
    requires Instance(body).Some?
    requires var st := Instance(body).value; SanityChecks(st.nodes, st.destinations, st.top) == Checked([])
    ensures var st := Instance(body).value;
            && st.destinations == Names(st.edges)
            && (forall d | d in st.destinations :: GetUrl(st.nodes, d).Some?)
            && CheckedFieldsDefined(st.top)
  {
    var st := Instance(body).value;
    GateGuarantees(st.nodes, st.destinations, st.top);
    DestinationsAreEdgeNames(Parse(Scan(Initial, body)).value);
  }

  /** The gate lets through what the fleet's runs assume to execute. */
  lemma GateOpensForRuns(body: string)
    ensures Gate(body).Run? <==>
            Instance(body).Some? &&
            (var st := Instance(body).value; Fleet.Executes(st.nodes, st.destinations, st.top))
  {
    if Instance(body).Some? {
      var st := Instance(body).value;
      if SanityChecks(st.nodes, st.destinations, st.top) == Checked([]) {
        GateGuarantees(st.nodes, st.destinations, st.top);
      }
    }
  }

  function HealthAfter(body: string, now: int, healthy: bool, until: int): (bool, int) {
    var top := if Instance(body).Some? then Instance(body).value.top else map[];
    (Healthy(top, healthy), Until(top, now, until))
  }

  // ---------- the unresponsive window over many requests ----------

  /** A request as it arrives, with both readings of the clock. */
  datatype Arrival = Arrival(path: string, body: string, arrival: int, later: int)

  datatype Instant = Instant(healthy: bool, until: int)

  /** What `HandleRequest` does to the static members. */
  function Serve(s: Instant, a: Arrival): Instant {
    if a.arrival <= s.until || a.path == "/healthz" || !Gate(a.body).Run? then s
    else
      var after := HealthAfter(a.body, a.later, s.healthy, s.until);
      Instant(after.0, after.1)
  }

  function ServeAll(s: Instant, requests: seq<Arrival>): Instant {
    if requests == [] then s else Serve(ServeAll(s, requests[..|requests| - 1]), requests[|requests| - 1])
  }

  /** One request after the other, on a clock that does not run backwards. */
  predicate InOrder(requests: seq<Arrival>) {
    && (forall i | 0 <= i < |requests| :: requests[i].arrival <= requests[i].later)
    && forall i, j | 0 <= i < j < |requests| :: requests[i].later <= requests[j].arrival
  }

  /** Durations in accepted requests are not negative: the language has no sign. */
  lemma DurationsAreNatural(body: string, key: string)
    requires Instance(body).Some?
    ensures LongOf(Instance(body).value.top, key) >= 0
  {
    AttributesAreGood(body);
    var top := Instance(body).value.top;
    if key in top && Stol(top[key]).Converted? {
      TextConverts(top[key]);
      DigitsConvert(top[key], -0x8000_0000_0000_0000, 0x7fff_ffff_ffff_ffff);
    }
  }

  lemma ServeExtends(s: Instant, a: Arrival)
    requires a.arrival <= a.later
    ensures s.until <= Serve(s, a).until
  {
    if Gate(a.body).Run? {
      DurationsAreNatural(a.body, "unresponsive_for_sec");
      DurationsAreNatural(a.body, "unresponsive_for_usec");
    }
  }

  // ---------- what a request that is executed leaves behind ----------

  /** The number under `key` is `n`, or it is not given and `n` is zero. */
  predicate GivenAs(top: Attributes, key: string, n: nat) {
    if key in top then top[key] == Decimal(n) else n == 0
  }

  lemma LongIsGiven(top: Attributes, key: string, n: nat)
    requires GivenAs(top, key, n) && LongIfGiven(top, key)
    ensures LongOf(top, key) == n
  {
    DecimalIsLong(n);
  }

  /** The request is neither dropped nor a health check, and it passes the gate. */
  predicate IsExecuted(s: Instant, a: Arrival) {
    s.until < a.arrival && a.path != "/healthz" && Gate(a.body).Run?
  }

  /** An executed request has two numbers for the window; one that is not given counts as zero. */
  lemma WindowIsGiven(body: string) returns (sec: nat, usec: nat)
    requires Gate(body).Run?
    ensures GivenAs(Gate(body).st.top, "unresponsive_for_sec", sec)
    ensures GivenAs(Gate(body).st.top, "unresponsive_for_usec", usec)
  {
    AttributesAreGood(body);
    var top := Gate(body).st.top;
    sec := GivenNumber(top, "unresponsive_for_sec");
    usec := GivenNumber(top, "unresponsive_for_usec");
  }

  lemma GivenNumber(top: Attributes, key: string) returns (n: nat)
    requires GoodMap(top) && LongIfGiven(top, key)
    ensures GivenAs(top, key, n)
  {
    n := 0;
    if key in top {
      TextConverts(top[key]);
      n := NumeralValue(top[key]);
    }
  }

  /**
   The window in seconds and microseconds: an executed request moves the limit that far beyond the clock,
   if one of the two is positive, and otherwise leaves it.  Whether the next request is dropped is decided
   by that limit alone.
   */
  lemma WindowIsSet(s: Instant, a: Arrival, sec: nat, usec: nat)
    requires IsExecuted(s, a)
    requires var top := Gate(a.body).st.top;
             GivenAs(top, "unresponsive_for_sec", sec) && GivenAs(top, "unresponsive_for_usec", usec)
    ensures Serve(s, a).until == if sec > 0 || usec > 0 then a.later + sec * 1000000 + usec else s.until
  {
    hide LongOf, SanityChecks, Instance, LongIfGiven, Until, GivenAs, CheckedFieldsDefined;
    var top := Gate(a.body).st.top;
    LongIsGiven(top, "unresponsive_for_sec", sec);
    LongIsGiven(top, "unresponsive_for_usec", usec);
    UntilIsGiven(top, a.later, s.until, sec, usec);
  }

  lemma UntilIsGiven(top: Attributes, now: int, until: int, sec: nat, usec: nat)
    requires LongOf(top, "unresponsive_for_sec") == sec && LongOf(top, "unresponsive_for_usec") == usec
    ensures Until(top, now, until) == if sec > 0 || usec > 0 then now + sec * 1000000 + usec else until
  {
    hide LongOf;
  }

  /** Up to the limit a request changes nothing; one that arrives later and passes its gate is executed. */
  lemma NextIsDropped(s: Instant, a: Arrival, b: Arrival, sec: nat, usec: nat)
    requires IsExecuted(s, a) && (sec > 0 || usec > 0)
    requires var top := Gate(a.body).st.top;
             GivenAs(top, "unresponsive_for_sec", sec) && GivenAs(top, "unresponsive_for_usec", usec)
    ensures b.arrival <= a.later + sec * 1000000 + usec ==> Serve(Serve(s, a), b) == Serve(s, a)
    ensures b.path != "/healthz" && Gate(b.body).Run? ==>
              (IsExecuted(Serve(s, a), b) <==> b.arrival > a.later + sec * 1000000 + usec)
  {
    WindowIsSet(s, a, sec, usec);
    hide Gate, HealthAfter;
  }

  /** An executed request that says something about health makes the instance healthy with the word true only. */
  lemma HealthIsSet(s: Instant, a: Arrival)
    requires IsExecuted(s, a)
    ensures var top := Gate(a.body).st.top;
            && ("healthy" !in top ==> Serve(s, a).healthy == s.healthy)
            && ("healthy" in top ==> (Serve(s, a).healthy <==> top["healthy"] == "true"))
  {
    hide LongOf, SanityChecks, Stol;
  }

  lemma ServeNext(s: Instant, requests: seq<Arrival>, k: nat)
    requires k < |requests|
    ensures ServeAll(s, requests[..k + 1]) == Serve(ServeAll(s, requests[..k]), requests[k])
  {
    hide Serve;
    assert requests[..k + 1][..k] == requests[..k];
  }

  /** The limit never moves back. */
  lemma {:induction false} WindowNeverShrinks(s: Instant, requests: seq<Arrival>, i: nat, j: nat)
    requires InOrder(requests) && i <= j <= |requests|
    ensures ServeAll(s, requests[..i]).until <= ServeAll(s, requests[..j]).until
    decreases j
  {
    hide Serve;
    if i < j {
      WindowNeverShrinks(s, requests, i, j - 1);
      ServeNext(s, requests, j - 1);
      ServeExtends(ServeAll(s, requests[..j - 1]), requests[j - 1]);
    }
  }

  /**
   A window that was opened holds: after request `i`, nothing that arrives up to the limit then in
   force changes any state, however many requests there are in between.
   */
  lemma RequestsInTheWindowAreDropped(s: Instant, requests: seq<Arrival>, i: nat, j: nat)
    requires InOrder(requests) && i <= j < |requests|
    requires requests[j].arrival <= ServeAll(s, requests[..i]).until
    ensures ServeAll(s, requests[..j + 1]) == ServeAll(s, requests[..j])
  {
    hide Gate, HealthAfter;
    WindowNeverShrinks(s, requests, i, j);
    ServeNext(s, requests, j);
  }
}
