/**
 What the numbers and words of a document come to, said of the document itself: how often a call is made,
 how long the instance is unresponsive, when it is healthy, and what has no place in a document.
 */
module AsWritten {
  import opened Lexical
  import opened Scanner
  import opened ScanSteps
  import opened Gaps
  import opened Grammar
  import opened Actions
  import opened NodeGlob
  import opened AttributeText
  import opened Layout
  import opened RoundTrip
  import opened Hops
  import opened Sums
  import opened Sequences
  import opened Fleet
  import opened Service

  // ---------- repeat and sequence ----------

  /** The number of the last `repeat`, or of the last `sequence`, of a call; zero if there is none. */
  function LastNumber(opts: seq<OptL>, isRepeat: bool): nat
    requires GoodOpts(opts)
  {
    if opts == [] then 0
    else if HasNumber(opts[1..], isRepeat) then LastNumber(opts[1..], isRepeat)
    else if opts[0].isRepeat == isRepeat then NumeralValue(opts[0].digits)
    else 0
  }

  predicate HasNumber(opts: seq<OptL>, isRepeat: bool) {
    exists i | 0 <= i < |opts| :: opts[i].isRepeat == isRepeat
  }

  lemma {:induction false} LastNumberSnoc(opts: seq<OptL>, o: OptL, isRepeat: bool)
    requires GoodOpts(opts) && GoodOptL(o)
    ensures GoodOpts(opts + [o])
    ensures LastNumber(opts + [o], isRepeat)
            == if o.isRepeat == isRepeat then NumeralValue(o.digits) else LastNumber(opts, isRepeat)
    ensures OptsOf(opts + [o]) == OptsOf(opts) + [OptOf(o)]
  {
    if opts == [] {
      assert opts + [o] == [o] && [o][1..] == [];
    } else {
      Tail(opts, [o]);
      LastNumberSnoc(opts[1..], o, isRepeat);
      HasSnoc(opts[1..], o, isRepeat);
    }
  }

  lemma HasSnoc(opts: seq<OptL>, o: OptL, isRepeat: bool)
    ensures HasNumber(opts + [o], isRepeat) <==> HasNumber(opts, isRepeat) || o.isRepeat == isRepeat
  {
    assert (opts + [o])[|opts|] == o;
    assert forall i | 0 <= i < |opts| :: (opts + [o])[i] == opts[i];
  }

  lemma {:induction false} GoodFront(opts: seq<OptL>)
    requires GoodOpts(opts) && opts != []
    ensures GoodOpts(opts[..|opts| - 1]) && GoodOptL(opts[|opts| - 1])
  {
    if |opts| > 1 {
      GoodFront(opts[1..]);
      assert opts[..|opts| - 1][1..] == opts[1..][..|opts| - 2];
    }
  }

  lemma {:induction false} PairIsWritten(opts: seq<OptL>)
    requires GoodOpts(opts)
    ensures EdgePair(OptsOf(opts)) == (LastNumber(opts, true), LastNumber(opts, false))
    decreases |opts|
  {
    if opts != [] {
      var front, o := opts[..|opts| - 1], opts[|opts| - 1];
      GoodFront(opts);
      Front(opts);
      PairIsWritten(front);
      LastNumberSnoc(front, o, true);
      LastNumberSnoc(front, o, false);
      Snoc(OptsOf(front), OptOf(o));
    }
  }

  /** Destination, repetition and sequence number of a call are those that were written last. */
  lemma SubcallIsWritten(c: Call, nodes: map<string, Attributes>)
    requires GoodCall(c)
    ensures var s := SubcallOf(c, nodes);
            s.dest == c.dest && s.repeat == LastNumber(c.opts, true) && s.sequence == LastNumber(c.opts, false)
  {
    PairIsWritten(c.opts);
  }

  /** The request has `c` for its only call. */
  predicate OnlyCall(b: Body, c: Call) {
    match b
    case End => false
    case WithAttr(_, more) => OnlyCall(more, c)
    case WithCall(d, more) => d == c && NoCalls(more)
  }

  predicate NoCalls(b: Body) {
    match b
    case End => true
    case WithAttr(_, more) => NoCalls(more)
    case WithCall(_, _) => false
  }

  lemma {:induction false} NoSubcalls(b: Body, nodes: map<string, Attributes>)
    requires GoodBody(b) && NoCalls(b)
    ensures SubcallsOf(b, nodes) == []
  {
    match b
    case End =>
    case WithAttr(_, more) => NoSubcalls(more, nodes);
  }

  lemma {:induction false} OnlySubcall(b: Body, c: Call, nodes: map<string, Attributes>)
    requires GoodBody(b) && OnlyCall(b, c)
    ensures GoodCall(c) && SubcallsOf(b, nodes) == [SubcallOf(c, nodes)]
  {
    match b
    case WithAttr(_, more) => OnlySubcall(more, c, nodes);
    case WithCall(_, more) => NoSubcalls(more, nodes);
  }

  /** Definitions, and then one request. */
  predicate OneRequest(rules: seq<RuleL>, b: Body) {
    && rules != [] && rules[|rules| - 1].TopL? && rules[|rules| - 1].body == b
    && forall i | 0 <= i < |rules| - 1 :: rules[i].NodeL?
  }

  lemma {:induction false} OneRequestCalls(rules: seq<RuleL>, b: Body, nodes: map<string, Attributes>)
    requires GoodRuleLs(rules) && OneRequest(rules, b)
    ensures GoodBody(b) && DocumentCalls(rules, nodes) == SubcallsOf(b, nodes)
  {
    assert GoodRuleL(rules[|rules| - 1]);
    if |rules| == 1 {
      assert rules[1..] == [];
      assert SubcallsOf(b, nodes) + [] == SubcallsOf(b, nodes);
    } else {
      OneRequestCalls(rules[1..], b, nodes);
    }
  }

  /** `n` calls, all the same and straight to `dest`. */
  ghost predicate SameCalls(paths: seq<Path>, n: nat, dest: string) {
    && |paths| == n
    && (forall p: Path | p in paths :: |p| == 1 && p[0].dest == dest)
    && forall i, j | 0 <= i < j < n :: paths[i] == paths[j]
  }

  lemma QuietReceiver(t: Tree, prefix: Path)
    requires t.Request? && t.calls == []
    ensures Calls(t, prefix) == []
  {
    hide Executes;
  }

  lemma TimesAreSame(n: nat, p: Path, dest: string)
    requires |p| == 1 && p[0].dest == dest
    ensures SameCalls(Times(n, [p]), n, dest)
  {
    TimesOfOne(n, p);
    hide Times;
  }

  lemma OneCallsOf(nodes: map<string, Attributes>, s: Subcall, p: Path)
    requires s.request.Request? && s.request.calls == [] && p == [] + [HopOf(nodes, s)]
    ensures CallsOf(nodes, [s], []) == Times(if s.repeat < 1 then 1 else s.repeat, [p])
  {
    QuietReceiver(s.request, p);
    hide Calls, HopOf, Times;
    assert Via(nodes, s, []) == [p] + [] == [p];
    assert [s][1..] == [];
    var n := if s.repeat < 1 then 1 else s.repeat;
    assert Times(n, [p]) + [] == Times(n, [p]);
  }

  lemma OneSubcall(t: Tree, s: Subcall)
    requires Acts(t) && t.calls == [s] && s.request.Request? && s.request.calls == []
    ensures SameCalls(Calls(t, []), if s.repeat < 1 then 1 else s.repeat, s.dest)
  {
    var p := [] + [HopOf(t.nodes, s)];
    HopGoesTo(t.nodes, s);
    hide Executes, HopOf, CallsOf, Times, SameCalls;
    OneCallsOf(t.nodes, s, p);
    TimesAreSame(if s.repeat < 1 then 1 else s.repeat, p, s.dest);
  }

  lemma HopGoesTo(nodes: map<string, Attributes>, s: Subcall)
    ensures HopOf(nodes, s).dest == s.dest
  {
  }

  /**
   A call that is written with `repeat = n` is made n times, and one without, or with zero, once: for every
   document with that one call, in any layout, whose receiver calls nobody.
   */
  lemma RepeatsAreCalls(doc: Document, b: Body, c: Call)
    requires SoundDocument(doc) && OneRequest(doc.rules, b) && OnlyCall(b, c) && NoCalls(c.body)
    requires Acts(Meaning(doc))
    ensures GoodCall(c)
    ensures SameCalls(Calls(Meaning(doc), []),
                      if LastNumber(c.opts, true) < 1 then 1 else LastNumber(c.opts, true), c.dest)
  {
    hide Acts, SameCalls, DocumentNodes, DocumentAttrs;
    var nodes := DocumentNodes(doc.rules);
    OneRequestCalls(doc.rules, b, nodes);
    OnlySubcall(b, c, nodes);
    NoSubcalls(c.body, nodes);
    SubcallIsWritten(c, nodes);
    OneSubcall(Meaning(doc), SubcallOf(c, nodes));
  }

  /** And as often in every run of the fleet. */
  lemma RepeatsAreMade(doc: Document, b: Body, c: Call, run: Run)
    requires SoundDocument(doc) && OneRequest(doc.rules, b) && OnlyCall(b, c) && NoCalls(c.body)
    requires Acts(Meaning(doc)) && ValidRun(Print(doc), run)
    ensures GoodCall(c)
    ensures |Log(Print(doc), run, [])| == if LastNumber(c.opts, true) < 1 then 1 else LastNumber(c.opts, true)
    ensures forall p: Path | p in Log(Print(doc), run, []) :: |p| == 1 && p[0].dest == c.dest
  {
    RepeatsAreCalls(doc, b, c);
    FleetMakesTheDenotedCalls(doc, run);
    hide Log, Calls, Meaning, Print, Acts, ValidRun;
    Members(Log(Print(doc), run, []), Calls(Meaning(doc), []));
  }

  // ---------- windows and health ----------

  /** What an instance takes from the last request of a document. */
  lemma TopIsWritten(doc: Document, b: Body, key: string)
    requires SoundDocument(doc) && OneRequest(doc.rules, b)
    ensures Instance(Print(doc)).Some? && GoodBody(b)
    ensures var top := Instance(Print(doc)).value.top;
            FirstValue(BodyAttrs(b), key) == if key in top then Some(top[key]) else None
  {
    PrintThenParse(doc);
    DocumentTop(doc.rules);
    assert GoodRuleL(doc.rules[|doc.rules| - 1]);
    FirstDefinitionWins(BodyAttrs(b), key);
  }

  /** The number written for `key` is `n`; none is zero. */
  predicate WrittenAs(b: Body, key: string, n: nat)
    requires GoodBody(b)
  {
    match FirstValue(BodyAttrs(b), key)
    case None => n == 0
    case Some(v) => v == Decimal(n)
  }

  /** A document that is executed makes its instance unresponsive for the seconds and microseconds it says. */
  lemma WindowIsWritten(s: Instant, doc: Document, b: Body, path: string, arrival: int, later: int, sec: nat, usec: nat)
    requires SoundDocument(doc) && OneRequest(doc.rules, b) && IsExecuted(s, Arrival(path, Print(doc), arrival, later))
    requires GoodBody(b)
    requires WrittenAs(b, "unresponsive_for_sec", sec) && WrittenAs(b, "unresponsive_for_usec", usec)
    ensures Serve(s, Arrival(path, Print(doc), arrival, later)).until
            == if sec > 0 || usec > 0 then later + sec * 1000000 + usec else s.until
  {
    hide Instance, Gate, Print, Serve, SoundDocument, OneRequest, WrittenAs, GivenAs;
    GivenIsWritten(doc, b, "unresponsive_for_sec", sec);
    GivenIsWritten(doc, b, "unresponsive_for_usec", usec);
    GateSt(Print(doc));
    WindowIsSet(s, Arrival(path, Print(doc), arrival, later), sec, usec);
  }

  lemma GivenIsWritten(doc: Document, b: Body, key: string, n: nat)
    requires SoundDocument(doc) && OneRequest(doc.rules, b) && GoodBody(b) && WrittenAs(b, key, n)
    ensures Instance(Print(doc)).Some? && GivenAs(Instance(Print(doc)).value.top, key, n)
  {
    TopIsWritten(doc, b, key);
    hide Instance, Print, FirstValue, BodyAttrs, GoodBody, SoundDocument, OneRequest;
  }

  lemma GateSt(text: string)
    ensures Gate(text).Run? ==> Instance(text) == Some(Gate(text).st)
  {
    hide Instance;
  }

  /** One that says `healthy` makes it healthy with the word true, and unhealthy with anything else. */
  lemma HealthIsWritten(s: Instant, doc: Document, b: Body, path: string, arrival: int, later: int)
    requires SoundDocument(doc) && OneRequest(doc.rules, b) && IsExecuted(s, Arrival(path, Print(doc), arrival, later))
    requires GoodBody(b)
    ensures Serve(s, Arrival(path, Print(doc), arrival, later)).healthy
            == match FirstValue(BodyAttrs(b), "healthy")
               case None => s.healthy
               case Some(v) => v == "true"
  {
    TopIsWritten(doc, b, "healthy");
    GateSt(Print(doc));
    hide Instance, Gate, Print, Serve, FirstValue, SoundDocument, OneRequest;
    HealthIsSet(s, Arrival(path, Print(doc), arrival, later));
  }

  // ---------- characters that have no place in a document ----------

  /** No blank, letter or digit, and none of = , [ ] - > " / */
  predicate Illegal(c: char) {
    && c != ' ' && c != '\t' && c != '\r' && c != '\n'
    && !('a' <= c <= 'z') && !('A' <= c <= 'Z') && !('0' <= c <= '9')
    && c != '=' && c != ',' && c != '[' && c != ']' && c != '-' && c != '>' && c != '"' && c != '/'
  }

  lemma ScanIllegal(c: char, rest: string)
    requires Illegal(c)
    ensures Scan(Initial, [c] + rest) == [Invalid(c)] + Scan(Initial, rest)
  {
    NextIllegal(c, rest);
    hide Next, Scan;
    ScanNext(Initial, [c] + rest);
    Cons(c, rest);
  }

  lemma NextIllegal(c: char, rest: string)
    requires Illegal(c)
    ensures Next(Initial, [c] + rest) == Match(Some(Invalid(c)), 1, Initial)
  {
    hide Span, IndexOf, BlobLength, CloseAt, NumeralValue;
  }

  /** The rules of a document in front of some other text. */
  function PrintRulesThen(rules: seq<RuleL>, rest: string): string {
    if rules == [] then rest else PrintRule(rules[0], PrintRulesThen(rules[1..], rest))
  }

  lemma {:induction false} ScanRulesThen(rules: seq<RuleL>, rest: string)
    requires GoodRuleLs(rules) && VerbatimRules(rules)
    ensures Scan(Initial, PrintRulesThen(rules, rest)) == RuleTokens(RulesOf(rules), Scan(Initial, rest))
  {
    hide Scan, PrintRule, VerbatimRule, GoodRuleL, OneRuleTokens;
    if rules != [] {
      ScanRule(rules[0], PrintRulesThen(rules[1..], rest));
      ScanRulesThen(rules[1..], rest);
      Cons(RuleOf(rules[0]), RulesOf(rules[1..]));
    }
  }

  /** Behind any rules, text whose first token has no place makes an instance refuse all of it. */
  lemma RefusedBehind(lead: Gap, rules: seq<RuleL>, text: string, t: Token, rest: seq<Token>)
    requires GoodGap(lead) && GoodRuleLs(rules) && VerbatimRules(rules)
    requires Scan(Initial, text) == [t] + rest && (t.Invalid? || t == SOURCE)
    ensures Instance(GapText(lead, PrintRulesThen(rules, text))).None?
  {
    hide Scan, PrintRulesThen, Parse, GoodRuleLs, VerbatimRules;
    ScanGap(Initial, lead, PrintRulesThen(rules, text));
    ScanRulesThen(rules, text);
    InvalidIsRefused([t] + rest, 0);
    ParseComplete(RulesOf(rules), [t] + rest);
  }

  /** An illegal character, whatever follows. */
  lemma IllegalIsRefused(lead: Gap, rules: seq<RuleL>, c: char, rest: string)
    requires GoodGap(lead) && GoodRuleLs(rules) && VerbatimRules(rules) && Illegal(c)
    ensures Instance(GapText(lead, PrintRulesThen(rules, [c] + rest))).None?
  {
    hide Scan, PrintRulesThen, Parse, GoodRuleLs, VerbatimRules, Illegal;
    ScanIllegal(c, rest);
    RefusedBehind(lead, rules, [c] + rest, Invalid(c), Scan(Initial, rest));
  }

  /** The word source in the place of a name. */
  lemma SourceIsRefused(lead: Gap, rules: seq<RuleL>, rest: string)
    requires GoodGap(lead) && GoodRuleLs(rules) && VerbatimRules(rules) && StopsWord(rest)
    ensures Instance(GapText(lead, PrintRulesThen(rules, "source" + rest))).None?
  {
    hide Scan, PrintRulesThen, Parse, GoodRuleLs, VerbatimRules;
    ScanWord(Initial, "source", rest);
    RefusedBehind(lead, rules, "source" + rest, SOURCE, Scan(Initial, rest));
  }

  /** A comment that is not closed. */
  lemma OpenCommentIsRefused(lead: Gap, rules: seq<RuleL>, inner: string)
    requires GoodGap(lead) && GoodRuleLs(rules) && VerbatimRules(rules) && CloseAt(inner).None?
    ensures Instance(GapText(lead, PrintRulesThen(rules, "/*" + inner))).None?
  {
    NextOpenComment(inner);
    hide Next, Scan, PrintRulesThen, Parse, GoodRuleLs, VerbatimRules, CloseAt;
    ScanNext(Initial, "/*" + inner);
    assert ("/*" + inner)[2..] == inner;
    RefusedBehind(lead, rules, "/*" + inner, Invalid('/'), Scan(Initial, inner));
  }

  lemma NextOpenComment(inner: string)
    requires CloseAt(inner).None?
    ensures Next(Initial, "/*" + inner) == Match(Some(Invalid('/')), 2, Initial)
  {
    assert ("/*" + inner)[2..] == inner;
    hide Span, IndexOf, BlobLength, CloseAt, NumeralValue;
  }

  /** A string that is not closed. */
  lemma OpenStringIsRefused(lead: Gap, rules: seq<RuleL>, inner: string)
    requires GoodGap(lead) && GoodRuleLs(rules) && VerbatimRules(rules) && '"' !in inner
    ensures Instance(GapText(lead, PrintRulesThen(rules, "\"" + inner))).None?
  {
    NextOpenString(inner);
    hide Next, Scan, PrintRulesThen, Parse, GoodRuleLs, VerbatimRules;
    ScanNext(Initial, "\"" + inner);
    assert ("\"" + inner)[1..] == inner;
    RefusedBehind(lead, rules, "\"" + inner, Invalid('"'), Scan(Initial, inner));
  }

  lemma NextOpenString(inner: string)
    requires '"' !in inner
    ensures Next(Initial, "\"" + inner) == Match(Some(Invalid('"')), 1, Initial)
  {
    var s := "\"" + inner;
    assert s[1..] == inner;
    assert IndexOf(inner, '"').None?;
    hide Span, IndexOf, BlobLength, CloseAt, NumeralValue;
  }

  /** In a call header any other character is skipped. */
  lemma OthersAreSkipped(c: char, rest: string)
    requires Illegal(c) || c == '-' || c == '>' || c == '"'
    ensures Scan(EdgeDef, [c] + rest) == Scan(EdgeDef, rest)
  {
    NextSkips(c, rest);
    hide Next, Scan;
    ScanNext(EdgeDef, [c] + rest);
    Cons(c, rest);
  }

  lemma NextSkips(c: char, rest: string)
    requires Illegal(c) || c == '-' || c == '>' || c == '"'
    ensures Next(EdgeDef, [c] + rest) == Match(None, 1, EdgeDef)
  {
    hide Span, IndexOf, BlobLength, CloseAt, NumeralValue;
  }
}
