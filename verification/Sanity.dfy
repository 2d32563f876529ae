/**
 The sanity checks that stand between parsing and executing a request
 (src/fidi_driver.cc:114-248), and what they guarantee to `Execute`.
 */
module Sanity {
  import opened Lexical
  import opened Numbers
  import opened Ordered
  import opened Grammar
  import opened Actions

  // ---------- the checks ----------

  datatype Field =
    | Port(node: string) | ResponseCode | PreDelay | PostDelay | TimeoutSec | TimeoutUsec

  datatype Warning =
    | NoAddress(node: string)
    | Garbage(field: Field)
    | NotInteger(field: Field)
    | OutOfRange(field: Field)
    | QuotedHost(node: string)
    | UndefinedNode(node: string)
    | BadResponse(code: int)
    | NoResponse
    | UsecTooLarge

  /** The second `std::stol` on `timeout_usec` is outside any try block. */
  datatype Outcome = Checked(warnings: seq<Warning>) | Threw

  function CheckNum(s: string, field: Field): (r: (int, seq<Warning>))
    ensures r.1 == [] <==> IsInt(s)
  {
    match Stoi(s)
    case NoDigits => (0, [NotInteger(field)])
    case TooLarge => (0, [OutOfRange(field)])
    case Converted(n, idx) => (n, if idx < |s| then [Garbage(field)] else [])
  }

  function NodeWarnings(id: string, m: Attributes): seq<Warning> {
    (if "url" !in m && ("hostname" !in m || "port" !in m) then [NoAddress(id)] else [])
    + (if "port" in m then CheckNum(m["port"], Port(id)).1 else [])
    + (if "hostname" in m && '"' in m["hostname"] then [QuotedHost(id)] else [])
  }

  function NodesWarnings(ids: seq<string>, nodes: map<string, Attributes>): seq<Warning>
    requires forall id | id in ids :: id in nodes
  {
    if ids == [] then [] else NodeWarnings(ids[0], nodes[ids[0]]) + NodesWarnings(ids[1..], nodes)
  }

  function DestinationWarnings(ids: seq<string>, nodes: map<string, Attributes>): seq<Warning> {
    if ids == [] then []
    else (if ids[0] in nodes then [] else [UndefinedNode(ids[0])]) + DestinationWarnings(ids[1..], nodes)
  }

  function ResponseWarnings(top: Attributes): seq<Warning> {
    if "response" in top then
      var (code, warnings) := CheckNum(top["response"], ResponseCode);
      warnings + (if code <= 0 || code >= 600 then [BadResponse(code)] else [])
    else [NoResponse]
  }

  function FieldWarnings(top: Attributes, key: string, field: Field): seq<Warning> {
    if key in top then CheckNum(top[key], field).1 else []
  }

  function SanityChecks(nodes: map<string, Attributes>, destinations: set<string>, top: Attributes): Outcome {
    var warnings :=
      NodesWarnings(SortedKeys(nodes.Keys), nodes)
      + DestinationWarnings(SortedKeys(destinations), nodes)
      + TopWarnings(top);
    if UsecThrows(top) then Threw else Checked(warnings + UsecWarnings(top))
  }

  function TopWarnings(top: Attributes): seq<Warning> {
    ResponseWarnings(top)
    + FieldWarnings(top, "predelay", PreDelay)
    + FieldWarnings(top, "postdelay", PostDelay)
    + FieldWarnings(top, "timeout_sec", TimeoutSec)
    + FieldWarnings(top, "timeout_usec", TimeoutUsec)
  }

  predicate UsecThrows(top: Attributes) {
    "timeout_usec" in top && !Stol(top["timeout_usec"]).Converted?
  }

  function UsecWarnings(top: Attributes): seq<Warning>
    requires !UsecThrows(top)
  {
    if "timeout_usec" in top && Stol(top["timeout_usec"]).n >= 1000000 then [UsecTooLarge] else []
  }

  // ---------- what a clean result means ----------

  predicate HasAddress(m: Attributes) {
    "url" in m || ("hostname" in m && "port" in m)
  }

  predicate SoundNode(m: Attributes) {
    && HasAddress(m)
    && ("port" in m ==> IsInt(m["port"]))
    && ("hostname" in m ==> '"' !in m["hostname"])
  }

  predicate IntIfGiven(top: Attributes, key: string) {
    key in top ==> IsInt(top[key])
  }

  predicate SoundTop(top: Attributes) {
    && "response" in top && IsInt(top["response"]) && 0 < Stoi(top["response"]).n < 600
    && IntIfGiven(top, "predelay") && IntIfGiven(top, "postdelay")
    && IntIfGiven(top, "timeout_sec") && IntIfGiven(top, "timeout_usec")
    && ("timeout_usec" in top ==> Stoi(top["timeout_usec"]).n < 1000000)
  }

  predicate Sound(nodes: map<string, Attributes>, destinations: set<string>, top: Attributes) {
    && (forall id | id in nodes :: SoundNode(nodes[id]))
    && (forall d | d in destinations :: d in nodes)
    && SoundTop(top)
  }

  lemma {:induction false} NodesWarningsExact(ids: seq<string>, nodes: map<string, Attributes>)
    requires forall id | id in ids :: id in nodes
    ensures NodesWarnings(ids, nodes) == [] <==> forall id | id in ids :: SoundNode(nodes[id])
  {
    if ids != [] {
      NodesWarningsExact(ids[1..], nodes);
      assert NodeWarnings(ids[0], nodes[ids[0]]) == [] <==> SoundNode(nodes[ids[0]]);
      assert forall id :: id in ids <==> id == ids[0] || id in ids[1..];
    }
  }

  lemma {:induction false} DestinationWarningsExact(ids: seq<string>, nodes: map<string, Attributes>)
    ensures DestinationWarnings(ids, nodes) == [] <==> forall id | id in ids :: id in nodes
  {
    if ids != [] {
      DestinationWarningsExact(ids[1..], nodes);
      assert forall id :: id in ids <==> id == ids[0] || id in ids[1..];
    }
  }

  lemma TopWarningsExact(top: Attributes)
    ensures TopWarnings(top) == [] && !UsecThrows(top) && UsecWarnings(top) == [] <==> SoundTop(top)
  {
    if "timeout_usec" in top {
      StolExtendsStoi(top["timeout_usec"]);
    }
    assert ResponseWarnings(top) == [] <==>
      "response" in top && IsInt(top["response"]) && 0 < Stoi(top["response"]).n < 600;
    assert |TopWarnings(top)|
        == |ResponseWarnings(top)| + |FieldWarnings(top, "predelay", PreDelay)|
           + |FieldWarnings(top, "postdelay", PostDelay)| + |FieldWarnings(top, "timeout_sec", TimeoutSec)|
           + |FieldWarnings(top, "timeout_usec", TimeoutUsec)|;
  }

  /** The checks are silent exactly on sound requests. */
  lemma SilentIffSound(nodes: map<string, Attributes>, destinations: set<string>, top: Attributes)
    ensures SanityChecks(nodes, destinations, top) == Checked([]) <==> Sound(nodes, destinations, top)
  {
    NodesWarningsExact(SortedKeys(nodes.Keys), nodes);
    DestinationWarningsExact(SortedKeys(destinations), nodes);
    TopWarningsExact(top);
    SilentParts(nodes, destinations, top);
  }

  lemma SilentParts(nodes: map<string, Attributes>, destinations: set<string>, top: Attributes)
    ensures SanityChecks(nodes, destinations, top) == Checked([]) <==>
            && NodesWarnings(SortedKeys(nodes.Keys), nodes) == []
            && DestinationWarnings(SortedKeys(destinations), nodes) == []
            && TopWarnings(top) == [] && !UsecThrows(top) && UsecWarnings(top) == []
  {
    if !UsecThrows(top) {
      NoneOf(NodesWarnings(SortedKeys(nodes.Keys), nodes), DestinationWarnings(SortedKeys(destinations), nodes),
             TopWarnings(top), UsecWarnings(top));
    }
  }

  lemma NoneOf<X>(a: seq<X>, b: seq<X>, c: seq<X>, d: seq<X>)
    ensures a + b + c + d == [] <==> a == [] && b == [] && c == [] && d == []
  {
    assert |a + b + c + d| == |a| + |b| + |c| + |d|;
  }

  // ---------- what is reported ----------

  lemma {:induction false} NodesReport(ids: seq<string>, nodes: map<string, Attributes>, w: Warning)
    requires forall id | id in ids :: id in nodes
    ensures w in NodesWarnings(ids, nodes) <==> exists id :: id in ids && w in NodeWarnings(id, nodes[id])
  {
    if ids != [] {
      NodesReport(ids[1..], nodes, w);
      hide NodeWarnings;
      assert forall id :: id in ids <==> id == ids[0] || id in ids[1..];
    }
  }

  lemma {:induction false} DestinationsReport(ids: seq<string>, nodes: map<string, Attributes>, w: Warning)
    ensures w in DestinationWarnings(ids, nodes) <==> w.UndefinedNode? && w.node in ids && w.node !in nodes
  {
    if ids != [] {
      DestinationsReport(ids[1..], nodes, w);
      assert forall id :: id in ids <==> id == ids[0] || id in ids[1..];
    }
  }

  predicate NumberDue(s: string, w: Warning) {
    || (w.Garbage? && Stoi(s).Converted? && Stoi(s).idx < |s|)
    || (w.NotInteger? && Stoi(s).NoDigits?)
    || (w.OutOfRange? && Stoi(s).TooLarge?)
  }

  lemma NumberReport(s: string, field: Field, w: Warning)
    ensures w in CheckNum(s, field).1 <==> NumberDue(s, w) && w.field == field
  {
    hide Stoi;
  }

  predicate NodeDue(id: string, m: Attributes, w: Warning) {
    || (w == NoAddress(id) && "url" !in m && ("hostname" !in m || "port" !in m))
    || (w == QuotedHost(id) && "hostname" in m && '"' in m["hostname"])
    || ("port" in m && NumberDue(m["port"], w) && w.field == Port(id))
  }

  lemma NodeReport(id: string, m: Attributes, w: Warning)
    ensures w in NodeWarnings(id, m) <==> NodeDue(id, m, w)
  {
    if "port" in m {
      NumberReport(m["port"], Port(id), w);
    }
    hide CheckNum, NumberDue;
  }

  predicate FieldDue(top: Attributes, key: string, field: Field, w: Warning) {
    key in top && NumberDue(top[key], w) && w.field == field
  }

  lemma FieldReport(top: Attributes, key: string, field: Field, w: Warning)
    ensures w in FieldWarnings(top, key, field) <==> FieldDue(top, key, field, w)
  {
    if key in top {
      NumberReport(top[key], field, w);
    }
    hide CheckNum, NumberDue;
  }

  /** A response that is no number counts as zero. */
  predicate ResponseDue(top: Attributes, w: Warning) {
    if "response" !in top then w == NoResponse
    else
      || FieldDue(top, "response", ResponseCode, w)
      || match Stoi(top["response"])
         case Converted(n, _) => w == BadResponse(n) && (n <= 0 || n >= 600)
         case _ => w == BadResponse(0)
  }

  lemma ResponseReport(top: Attributes, w: Warning)
    ensures w in ResponseWarnings(top) <==> ResponseDue(top, w)
  {
    if "response" in top {
      NumberReport(top["response"], ResponseCode, w);
    }
    hide Stoi;
  }

  predicate UsecDue(top: Attributes, w: Warning) {
    && w == UsecTooLarge && "timeout_usec" in top
    && Stol(top["timeout_usec"]).Converted? && Stol(top["timeout_usec"]).n >= 1000000
  }

  lemma UsecReport(top: Attributes, w: Warning)
    requires !UsecThrows(top)
    ensures w in UsecWarnings(top) <==> UsecDue(top, w)
  {
    hide Stol;
  }

  predicate TopDue(top: Attributes, w: Warning) {
    || ResponseDue(top, w) || UsecDue(top, w)
    || FieldDue(top, "predelay", PreDelay, w) || FieldDue(top, "postdelay", PostDelay, w)
    || FieldDue(top, "timeout_sec", TimeoutSec, w) || FieldDue(top, "timeout_usec", TimeoutUsec, w)
  }

  lemma TopReport(top: Attributes, w: Warning)
    requires !UsecThrows(top)
    ensures w in TopWarnings(top) || w in UsecWarnings(top) <==> TopDue(top, w)
  {
    hide ResponseWarnings, ResponseDue, FieldWarnings, FieldDue, UsecWarnings, UsecDue;
    ResponseReport(top, w);
    UsecReport(top, w);
    FieldReport(top, "predelay", PreDelay, w);
    FieldReport(top, "postdelay", PostDelay, w);
    FieldReport(top, "timeout_sec", TimeoutSec, w);
    FieldReport(top, "timeout_usec", TimeoutUsec, w);
  }

  /** Unless the checks throw, what they report is exactly what is due, each with the name it is about. */
  lemma ReportsAreDue(nodes: map<string, Attributes>, destinations: set<string>, top: Attributes, w: Warning)
    requires SanityChecks(nodes, destinations, top).Checked?
    ensures w in SanityChecks(nodes, destinations, top).warnings <==>
            || (exists id :: id in nodes && NodeDue(id, nodes[id], w))
            || (w.UndefinedNode? && w.node in destinations && w.node !in nodes)
            || TopDue(top, w)
  {
    NodesReport(SortedKeys(nodes.Keys), nodes, w);
    DestinationsReport(SortedKeys(destinations), nodes, w);
    TopReport(top, w);
    forall id | id in nodes
      ensures w in NodeWarnings(id, nodes[id]) <==> NodeDue(id, nodes[id], w)
    {
      NodeReport(id, nodes[id], w);
    }
    hide NodesWarnings, DestinationWarnings, TopWarnings, UsecWarnings, NodeWarnings, NodeDue, TopDue, SortedKeys;
    hide UsecThrows;
  }

  // ---------- what Execute relies on ----------

  /** `AppDriver::GetUrl`; None where the C++ code would dereference an end iterator. */
  function GetUrl(nodes: map<string, Attributes>, name: string): Option<string> {
    if name !in nodes then None
    else
      var m := nodes[name];
      if "url" in m then Some(m["url"])
      else if "hostname" !in m || "port" !in m then None
      else Some("http://" + m["hostname"] + ":" + m["port"] + (if "path" in m then m["path"] else "/fidi"))
  }

  predicate LongIfGiven(top: Attributes, key: string) {
    key in top ==> Stol(top[key]).Converted?
  }

  /** The numbers that the checks have looked at. */
  predicate CheckedFieldsDefined(top: Attributes) {
    && ("response" in top ==> Stoi(top["response"]).Converted?)
    && LongIfGiven(top, "predelay") && LongIfGiven(top, "postdelay")
    && LongIfGiven(top, "timeout_sec") && LongIfGiven(top, "timeout_usec")
  }

  /** The numbers that nobody has looked at. */
  predicate WindowDefined(top: Attributes) {
    LongIfGiven(top, "unresponsive_for_sec") && LongIfGiven(top, "unresponsive_for_usec")
  }

  /** No conversion in `Execute` throws. */
  predicate ConversionsDefined(top: Attributes) {
    CheckedFieldsDefined(top) && WindowDefined(top)
  }

  /** What silence of the checks gives: addresses for all destinations, and numbers. */
  lemma GateGuarantees(nodes: map<string, Attributes>, destinations: set<string>, top: Attributes)
    requires SanityChecks(nodes, destinations, top) == Checked([])
    ensures forall d | d in destinations :: GetUrl(nodes, d).Some?
    ensures CheckedFieldsDefined(top)
  {
    SilentIffSound(nodes, destinations, top);
    forall s
      ensures Stoi(s).Converted? ==> Stol(s) == Stoi(s)
    {
      StolExtendsStoi(s);
    }
    forall d | d in destinations
      ensures GetUrl(nodes, d).Some?
    {
      assert SoundNode(nodes[d]);
    }
  }

  /**
   Gate soundness: after any accepted input, silence of the checks means that every URL lookup
   succeeds, and that `Execute` converts all its numbers if and only if the two keys nobody checks
   are absent or numeric.
   */
  lemma GateIsSound(rules: seq<Rule>)
    ensures var st := Replay(EMPTY, rules);
            SanityChecks(st.nodes, st.destinations, st.top) == Checked([]) ==>
              && (forall e | e in st.edges :: GetUrl(st.nodes, e.name).Some?)
              && (ConversionsDefined(st.top) <==> WindowDefined(st.top))
  {
    var st := Replay(EMPTY, rules);
    if SanityChecks(st.nodes, st.destinations, st.top) == Checked([]) {
      GateGuarantees(st.nodes, st.destinations, st.top);
      DestinationsAreEdgeNames(rules);
      forall e | e in st.edges
        ensures GetUrl(st.nodes, e.name).Some?
      {
        var i :| 0 <= i < |st.edges| && st.edges[i] == e;
        assert st.edges[i].name in Names(st.edges);
      }
    }
  }

  lemma DigitIsInt(c: char)
    requires IsDigit(c)
    ensures Stoi([c]) == Converted(DigitValue(c), 1)
  {
    var s := [c];
    assert s[0..] == s && s[..1] == s && s[..0] == "" && s[1..] == "";
    assert NumeralValue(s) == 10 * NumeralValue("") + DigitValue(c);
  }

  lemma WordIsNoNumber(s: string)
    requires IsIdent(s)
    ensures Stol(s) == NoDigits
  {
    assert s[0..] == s;
  }

  lemma TwoAttrs(a: Attr, b: Attr)
    requires a.key != b.key
    ensures AttrMap([a, b]) == map[a.key := ValueText(a.val), b.key := ValueText(b.val)]
  {
    AttrMapSnoc([], a);
    AttrMapSnoc([a], b);
    assert [] + [a] == [a] && [a] + [b] == [a, b];
  }

  lemma PlainTopIsSound(top: Attributes, c: char)
    requires top.Keys == {"response", "unresponsive_for_sec"} && top["response"] == [c] && '0' < c <= '9'
    ensures SoundTop(top)
  {
    DigitIsInt(c);
  }

  lemma PlainTopBreaks(top: Attributes, c: char)
    requires top.Keys == {"response", "unresponsive_for_sec"} && top["response"] == [c] && '0' < c <= '9'
    requires IsIdent(top["unresponsive_for_sec"])
    ensures SanityChecks(map[], {}, top) == Checked([]) && !WindowDefined(top)
  {
    PlainTopIsSound(top, c);
    SilentIffSound(map[], {}, top);
    WordIsNoNumber(top["unresponsive_for_sec"]);
  }

  /** The unchecked key really can break a request that parses and passes the checks. */
  lemma UncheckedKeyThrows()
    ensures var top := AttrMap([Attr("response", Number(5)), Attr("unresponsive_for_sec", Name("soon"))]);
            SanityChecks(map[], {}, top) == Checked([]) && !WindowDefined(top)
  {
    TwoAttrs(Attr("response", Number(5)), Attr("unresponsive_for_sec", Name("soon")));
    PlainTopBreaks(map["response" := Decimal(5), "unresponsive_for_sec" := "soon"], '5');
  }
}
