/**
 Node definitions travel as text: `HandleNode` prints them, the next instance scans and parses them
 again.  Nothing is lost on the way exactly if no printed string has been cut off
 (src/fidi_driver.cc:63-90).
 */
module NodeGlob {
  import opened Lexical
  import opened Scanner
  import opened ScanSteps
  import opened Gaps
  import opened AttributeText
  import opened Grammar
  import opened Ordered
  import opened Sequences
  import opened Actions

  // ---------- names and values that the scanner can have produced outside a call header ----------

  // `closed` says that no string was cut off.

  predicate GoodString(text: string, closed: bool) {
    StartsQuoted(text) && NulFree(text) && (closed ==> IsQuoted(text))
  }

  predicate GoodValue(v: Value, closed: bool) {
    match v
    case Quoted(text) => GoodString(text, closed)
    case Name(name) => GoodName(name)
    case Number(_) => true
  }

  predicate GoodAttr(a: Attr, closed: bool) {
    GoodName(a.key) && GoodValue(a.val, closed)
  }

  predicate GoodAttrs(attrs: seq<Attr>, closed: bool) {
    forall i | 0 <= i < |attrs| :: GoodAttr(attrs[i], closed)
  }

  predicate GoodRule(rule: Rule, closed: bool) {
    match rule
    case NodeRule(name, attrs) => GoodName(name) && GoodAttrs(attrs, closed)
    case TopRule(items) =>
      GoodAttrs(ItemAttrs(items), closed) && forall i | 0 <= i < |items| :: GoodItem(items[i])
  }

  predicate GoodItem(item: Item) {
    item.EdgeItem? ==> IsIdent(item.dest) && NulFree(item.blob)
  }

  predicate GoodRules(rules: seq<Rule>, closed: bool) {
    forall i | 0 <= i < |rules| :: GoodRule(rules[i], closed)
  }

  // ---------- tokens come out of the scanner good ----------

  predicate GoodToken(m: Mode, t: Token, closed: bool) {
    match t
    case IDENT(name) => IsIdent(name) && (m == Initial ==> name != "source")
    case STRING(text) => GoodString(text, closed)
    case BLOB(blob) => NulFree(blob)
    case _ => true
  }

  /** The start condition after a token: ">" opens a call header, its blob closes it. */
  function ModeAfter(m: Mode, t: Token): Mode {
    if t == ARROW then EdgeDef else if t.BLOB? then Initial else m
  }

  predicate GoodTokens(m: Mode, ts: seq<Token>, closed: bool)
    decreases |ts|
  {
    ts == [] || (GoodToken(m, ts[0], closed) && GoodTokens(ModeAfter(m, ts[0]), ts[1..], closed))
  }

  lemma {:induction false} ScannedTokensAreGood(m: Mode, s: string, closed: bool)
    requires m != EdgeAttr && (closed ==> NulFree(s))
    ensures GoodTokens(m, Scan(m, s), closed)
    decreases |s|
  {
    if s != "" {
      var r := Next(m, s);
      assert closed ==> NulFree(s[r.length..]);
      ScannedTokensAreGood(r.mode, s[r.length..], closed);
      NextIsGood(m, s, closed);
      hide Next, Scan, GoodToken;
      ScanNext(m, s);
      if r.token.Some? {
        GoodCons(m, r.token.value, Scan(r.mode, s[r.length..]), closed);
      }
    }
  }

  lemma ScanNext(m: Mode, s: string)
    requires m != EdgeAttr && s != ""
    ensures var r := Next(m, s);
            var rest := Scan(r.mode, s[r.length..]);
            Scan(m, s) == if r.token.Some? then [r.token.value] + rest else rest
  {
    hide Next;
  }

  lemma NextIsGood(m: Mode, s: string, closed: bool)
    requires m != EdgeAttr && s != "" && (closed ==> NulFree(s))
    ensures var r := Next(m, s);
            if r.token.Some? then GoodToken(m, r.token.value, closed) && r.mode == ModeAfter(m, r.token.value)
            else r.mode == m
  {
    hide Span, IndexOf, BlobLength, CloseAt, NumeralValue;
    if s[0] == '"' {
      StringIsGood(s, closed);
    }
  }

  lemma StringIsGood(s: string, closed: bool)
    requires s != "" && s[0] == '"' && (closed ==> NulFree(s))
    ensures var i := IndexOf(s[1..], '"'); i.Some? ==> GoodString(CString(s[..i.value + 2]), closed)
  {
    var i := IndexOf(s[1..], '"');
    if i.Some? {
      var text := s[..i.value + 2];
      assert IsQuoted(text);
      ScannedText(text);
      assert closed ==> NulFree(text);
    }
  }

  lemma GoodCons(m: Mode, t: Token, rest: seq<Token>, closed: bool)
    ensures GoodTokens(m, [t] + rest, closed) <==> GoodToken(m, t, closed) && GoodTokens(ModeAfter(m, t), rest, closed)
  {
    assert ([t] + rest)[1..] == rest;
  }

  lemma {:induction false} GoodAttrTokens(attrs: seq<Attr>, rest: seq<Token>, closed: bool)
    requires GoodTokens(Initial, AttrTokens(attrs, rest), closed)
    ensures GoodAttrs(attrs, closed) && GoodTokens(Initial, rest, closed)
  {
    if attrs != [] {
      GoodOneAttr(attrs[0], AttrTokens(attrs[1..], rest), closed);
      GoodAttrTokens(attrs[1..], rest, closed);
    }
  }

  lemma GoodOneAttr(a: Attr, tail: seq<Token>, closed: bool)
    requires GoodTokens(Initial, [IDENT(a.key), EQUALS, ValueToken(a.val), COMMA] + tail, closed)
    ensures GoodAttr(a, closed) && GoodTokens(Initial, tail, closed)
  {
    hide GoodTokens;
    var t := ValueToken(a.val);
    Three(IDENT(a.key), EQUALS, t, [COMMA] + tail);
    Associate([IDENT(a.key), EQUALS, t], [COMMA], tail);
    assert [IDENT(a.key), EQUALS, t] + [COMMA] == [IDENT(a.key), EQUALS, t, COMMA];
    GoodCons(Initial, IDENT(a.key), [EQUALS] + ([t] + ([COMMA] + tail)), closed);
    GoodCons(Initial, EQUALS, [t] + ([COMMA] + tail), closed);
    GoodCons(Initial, t, [COMMA] + tail, closed);
    GoodCons(Initial, COMMA, tail, closed);
  }

  lemma {:induction false} GoodOptTokens(opts: seq<EdgeOpt>, rest: seq<Token>, closed: bool)
    requires GoodTokens(EdgeDef, OptTokens(opts, rest), closed)
    ensures GoodTokens(EdgeDef, rest, closed)
  {
    if opts != [] {
      var tail := OptTokens(opts[1..], rest);
      var t, n := if opts[0].Repeat? then REPEAT else SEQUENCE, NUMBER(opts[0].n);
      Three(t, EQUALS, n, tail);
      GoodCons(EdgeDef, t, [EQUALS] + ([n] + tail), closed);
      GoodCons(EdgeDef, EQUALS, [n] + tail, closed);
      GoodCons(EdgeDef, n, tail, closed);
      GoodOptTokens(opts[1..], rest, closed);
    }
  }

  lemma GoodEdgeTokens(dest: string, opts: seq<EdgeOpt>, blob: string, rest: seq<Token>, closed: bool)
    requires GoodTokens(Initial, EdgeTokens(dest, opts, blob, rest), closed)
    ensures IsIdent(dest) && NulFree(blob) && GoodTokens(Initial, rest, closed)
  {
    hide GoodTokens, OptTokens;
    var tail := OptTokens(opts, [BLOB(blob)] + rest);
    Three(DASH, ARROW, IDENT(dest), tail);
    GoodCons(Initial, DASH, [ARROW] + ([IDENT(dest)] + tail), closed);
    GoodCons(Initial, ARROW, [IDENT(dest)] + tail, closed);
    GoodCons(EdgeDef, IDENT(dest), tail, closed);
    GoodOptTokens(opts, [BLOB(blob)] + rest, closed);
    GoodCons(EdgeDef, BLOB(blob), rest, closed);
  }

  lemma {:induction false} GoodItemTokens(items: seq<Item>, rest: seq<Token>, closed: bool)
    requires GoodTokens(Initial, ItemTokens(items, rest), closed)
    ensures GoodRule(TopRule(items), closed) && GoodTokens(Initial, rest, closed)
  {
    if items != [] {
      var tail := ItemTokens(items[1..], rest);
      match items[0] {
        case AttrItem(attr) => GoodAttrTokens([attr], tail, closed); assert GoodAttr([attr][0], closed);
        case EdgeItem(dest, opts, blob) => GoodEdgeTokens(dest, opts, blob, tail, closed);
      }
      GoodItemTokens(items[1..], rest, closed);
      assert forall i | 0 < i < |items| :: items[i] == items[1..][i - 1];
    }
  }

  lemma {:induction false} GoodRuleTokens(rules: seq<Rule>, closed: bool)
    requires GoodTokens(Initial, RuleTokens(rules, []), closed)
    ensures GoodRules(rules, closed)
  {
    if rules != [] {
      var ts, tail := RuleTokens(rules, []), RuleTokens(rules[1..], []);
      match rules[0] {
        case NodeRule(name, attrs) =>
          var list := AttrTokens(attrs, [CBRACKET] + tail);
          Two(IDENT(name), OBRACKET, list);
          GoodCons(Initial, IDENT(name), [OBRACKET] + list, closed);
          GoodCons(Initial, OBRACKET, list, closed);
          GoodAttrTokens(attrs, [CBRACKET] + tail, closed);
        case TopRule(items) =>
          GoodCons(Initial, OBRACKET, ItemTokens(items, [CBRACKET] + tail), closed);
          GoodItemTokens(items, [CBRACKET] + tail, closed);
      }
      GoodCons(Initial, CBRACKET, tail, closed);
      GoodRuleTokens(rules[1..], closed);
    }
  }

  /** Every accepted input is made of good names and values; without a NUL, of closed ones. */
  lemma AcceptedRulesAreGood(text: string, closed: bool)
    requires closed ==> NulFree(text)
    ensures var r := Parse(Scan(Initial, text)); r.Some? ==> GoodRules(r.value, closed)
  {
    ScannedTokensAreGood(Initial, text, closed);
    var r := Parse(Scan(Initial, text));
    if r.Some? {
      GoodRuleTokens(r.value, closed);
    }
  }

  // ---------- printed definitions scan back ----------

  /** The text of a value, as it stands in a map. */
  predicate GoodText(s: string) {
    || GoodString(s, false)
    || GoodName(s)
    || (IsNumeral(s) && Decimal(NumeralValue(s)) == s)
  }

  predicate GoodMap(m: Attributes) {
    forall k | k in m :: GoodName(k) && GoodText(m[k])
  }

  /** No string in the map has lost its closing quote. */
  predicate ClosedMap(m: Attributes) {
    forall k | k in m :: StartsQuoted(m[k]) ==> IsQuoted(m[k])
  }

  lemma {:induction false} GoodAttrsMap(attrs: seq<Attr>, closed: bool)
    requires GoodAttrs(attrs, closed)
    ensures GoodMap(AttrMap(attrs)) && (closed ==> ClosedMap(AttrMap(attrs)))
  {
    if attrs != [] {
      var n := |attrs| - 1;
      GoodAttrsMap(attrs[..n], closed);
      assert GoodAttr(attrs[n], closed);
      if attrs[n].val.Number? {
        DecimalValue(attrs[n].val.n);
      }
    }
  }

  /** The list that the printed map parses to. */
  function Listing(keys: seq<string>, m: Attributes): seq<Attr>
    requires GoodMap(m) && forall k | k in keys :: k in m
  {
    if keys == [] then [] else [Attr(keys[0], ReadValue(m[keys[0]]))] + Listing(keys[1..], m)
  }

  lemma GoodTextValue(s: string)
    requires GoodText(s)
    ensures ValueText(ReadValue(s)) == s
  {
  }

  lemma ScanEntry(key: string, val: string, rest: string)
    requires GoodName(key) && GoodText(val) && (StartsQuoted(val) ==> IsQuoted(val))
    ensures Scan(Initial, "  " + key + " = " + val + ",\n" + rest)
            == AttrTokens([Attr(key, ReadValue(val))], Scan(Initial, rest))
  {
    var b, nl := [Blank(' ')], [Blank('\n')];
    var text := PrintAttr(key, b, b, val, [], nl, rest);
    EntryPrinted(key, val, rest);
    ScanBlank(Initial, ' ', [' '] + text);
    ScanBlank(Initial, ' ', text);
    ScanAttr(key, b, b, val, [], nl, rest);
    ScannedText(val);
    hide Scan, PrintAttr, GoodText, IsQuoted, StartsQuoted, AttrTokens;
  }

  lemma EntryPrinted(key: string, val: string, rest: string)
    ensures "  " + key + " = " + val + ",\n" + rest
            == [' '] + ([' '] + PrintAttr(key, [Blank(' ')], [Blank(' ')], val, [], [Blank('\n')], rest))
  {
    var b, more := [Blank(' ')], [','] + (['\n'] + rest);
    assert GapText([], more) == more;
    OneBlank('\n', rest);
    OneBlank(' ', val + more);
    OneBlank(' ', ['='] + ([' '] + (val + more)));
    hide GapText;
    EntryPieces(key, val, rest);
  }

  lemma EntryPieces(key: string, val: string, rest: string)
    ensures "  " + key + " = " + val + ",\n" + rest
            == [' '] + ([' '] + (key + ([' '] + (['='] + ([' '] + (val + ([','] + (['\n'] + rest))))))))
  {
  }

  lemma OneBlank(c: char, rest: string)
    ensures GapText([Blank(c)], rest) == [c] + rest
  {
    assert [Blank(c)][1..] == [];
  }

  function EntryText(key: string, val: string): string {
    "  " + key + " = " + val + ",\n"
  }

  lemma {:induction false} ScanEntries(keys: seq<string>, m: Attributes, rest: string)
    requires GoodMap(m) && ClosedMap(m) && forall k | k in keys :: k in m
    ensures Scan(Initial, EntriesText(keys, m) + rest) == AttrTokens(Listing(keys, m), Scan(Initial, rest))
  {
    if keys == [] {
      assert "" + rest == rest;
    } else {
      var k, tail := keys[0], EntriesText(keys[1..], m);
      var attr := Attr(k, ReadValue(m[k]));
      ScanEntries(keys[1..], m, rest);
      ScanEntry(k, m[k], tail + rest);
      Associate(EntryText(k, m[k]), tail, rest);
      Cons(attr, Listing(keys[1..], m));
      OneAttrTokens(attr, Scan(Initial, tail + rest));
    }
  }

  function NodeRuleOf(name: string, m: Attributes): Rule
    requires GoodMap(m)
  {
    SortedKeysIn(m);
    NodeRule(name, Listing(SortedKeys(m.Keys), m))
  }

  lemma ScanNodeText(name: string, m: Attributes, rest: string)
    requires GoodName(name) && GoodMap(m) && ClosedMap(m)
    ensures Scan(Initial, NodeText(name, m) + rest) == OneRuleTokens(NodeRuleOf(name, m), Scan(Initial, rest))
  {
    SortedKeysIn(m);
    var keys := SortedKeys(m.Keys);
    NodeTextGaps(name, EntriesText(keys, m), rest);
    ScanDefinition(name, keys, m, rest);
  }

  lemma ScanDefinition(name: string, keys: seq<string>, m: Attributes, rest: string)
    requires GoodName(name) && GoodMap(m) && ClosedMap(m) && forall k | k in keys :: k in m
    ensures Scan(Initial, DefinitionText(name, EntriesText(keys, m), rest))
            == [IDENT(name), OBRACKET] + AttrTokens(Listing(keys, m), [CBRACKET] + Scan(Initial, rest))
  {
    var r1 := [']'] + GapText([Blank('\n')], rest);
    ScanOpening(name, EntriesText(keys, m) + r1);
    ScanEntries(keys, m, r1);
    ScanPunctuationGap(Initial, ']', [Blank('\n')], rest);
  }

  lemma ScanOpening(name: string, rest: string)
    requires GoodName(name)
    ensures Scan(Initial, name + GapText([Blank(' ')], ['['] + GapText([Blank('\n')], rest)))
            == [IDENT(name), OBRACKET] + Scan(Initial, rest)
  {
    ScanWordGap(Initial, name, [Blank(' ')], ['['] + GapText([Blank('\n')], rest));
    ScanPunctuationGap(Initial, '[', [Blank('\n')], rest);
    Two(IDENT(name), OBRACKET, Scan(Initial, rest));
  }

  function DefinitionText(name: string, entries: string, rest: string): string {
    var nl := [Blank('\n')];
    name + GapText([Blank(' ')], ['['] + GapText(nl, entries + ([']'] + GapText(nl, rest))))
  }

  lemma NodeTextGaps(name: string, entries: string, rest: string)
    ensures name + " [\n" + entries + "]\n" + rest == DefinitionText(name, entries, rest)
  {
    var nl := [Blank('\n')];
    var r2 := entries + ([']'] + GapText(nl, rest));
    OneBlank(' ', ['['] + GapText(nl, r2));
    OneBlank('\n', r2);
    OneBlank('\n', rest);
  }

  ghost predicate Holds(r: Attributes, keys: seq<string>, m: Attributes) {
    && (forall k :: k in r <==> k in keys)
    && forall k | k in r :: k in m && r[k] == m[k]
  }

  lemma {:induction false} ListingMap(keys: seq<string>, m: Attributes)
    requires GoodMap(m) && forall k | k in keys :: k in m
    requires forall i, j | 0 <= i < j < |keys| :: keys[i] != keys[j]
    ensures Holds(AttrMap(Listing(keys, m)), keys, m)
  {
    if keys != [] {
      var n := |keys| - 1;
      var k, front := keys[n], keys[..n];
      Front(keys);
      ListingMap(front, m);
      ListingSnoc(front, k, m);
      AttrMapSnoc(Listing(front, m), Attr(k, ReadValue(m[k])));
      GoodTextValue(m[k]);
      HoldsSnoc(AttrMap(Listing(front, m)), front, k, m);
    }
  }

  lemma {:induction false} ListingSnoc(keys: seq<string>, k: string, m: Attributes)
    requires GoodMap(m) && k in m && forall j | j in keys :: j in m
    ensures forall j | j in keys + [k] :: j in m
    ensures Listing(keys + [k], m) == Listing(keys, m) + [Attr(k, ReadValue(m[k]))]
  {
    if keys == [] {
      assert keys + [k] == [k] && [k][1..] == [];
    } else {
      Tail(keys, [k]);
      ListingSnoc(keys[1..], k, m);
      Associate([Attr(keys[0], ReadValue(m[keys[0]]))], Listing(keys[1..], m), [Attr(k, ReadValue(m[k]))]);
    }
  }

  lemma HoldsSnoc(r: Attributes, keys: seq<string>, k: string, m: Attributes)
    requires Holds(r, keys, m) && k in m
    ensures Holds(r[k := m[k]], keys + [k], m)
  {
  }

  /** Printing a map and reading it back gives the same map. */
  lemma NodeRuleOfMap(name: string, m: Attributes)
    requires GoodMap(m)
    ensures AttrMap(NodeRuleOf(name, m).attrs) == m
  {
    var keys := SortedKeys(m.Keys);
    SortedKeysIn(m);
    ListingMap(keys, m);
    HoldsAll(AttrMap(Listing(keys, m)), keys, m);
  }

  lemma HoldsAll(r: Attributes, keys: seq<string>, m: Attributes)
    requires Holds(r, keys, m) && forall k :: k in keys <==> k in m
    ensures r == m
  {
    assert r.Keys == m.Keys;
  }

  // ---------- the whole node glob ----------

  /** The definitions of `rules` in the form in which they are passed on. */
  function NodeRules(rules: seq<Rule>): seq<Rule>
    requires GoodRules(rules, false)
  {
    if rules == [] then []
    else if rules[0].NodeRule? then [CanonicalRule(rules[0])] + NodeRules(rules[1..])
    else NodeRules(rules[1..])
  }

  /** No string that is printed has lost its closing quote. */
  predicate ClosedRules(rules: seq<Rule>) {
    forall i | 0 <= i < |rules| && rules[i].NodeRule? :: ClosedMap(AttrMap(rules[i].attrs))
  }

  function CanonicalRule(rule: Rule): Rule
    requires GoodRule(rule, false) && rule.NodeRule?
  {
    GoodAttrsMap(rule.attrs, false);
    NodeRuleOf(rule.name, AttrMap(rule.attrs))
  }

  function OneText(rule: Rule): string {
    if rule.NodeRule? then NodeText(rule.name, AttrMap(rule.attrs)) else ""
  }

  function GlobText(rules: seq<Rule>): string {
    if rules == [] then "" else OneText(rules[0]) + GlobText(rules[1..])
  }

  lemma OneGlob(st: State, rule: Rule)
    ensures Apply(st, rule).glob == st.glob + OneText(rule)
  {
    assert rule.TopRule? ==> st.glob + "" == st.glob;
  }

  lemma {:induction false} GlobIsText(st: State, rules: seq<Rule>)
    ensures Replay(st, rules).glob == st.glob + GlobText(rules)
    decreases |rules|
  {
    if rules == [] {
      assert st.glob + "" == st.glob;
    } else {
      OneGlob(st, rules[0]);
      GlobIsText(Apply(st, rules[0]), rules[1..]);
      Associate(st.glob, OneText(rules[0]), GlobText(rules[1..]));
    }
  }

  lemma {:induction false} ScanGlob(rules: seq<Rule>, rest: string)
    requires GoodRules(rules, false) && ClosedRules(rules)
    ensures Scan(Initial, GlobText(rules) + rest) == RuleTokens(NodeRules(rules), Scan(Initial, rest))
  {
    if rules == [] {
      assert "" + rest == rest;
    } else {
      var tail := GlobText(rules[1..]);
      ScanGlob(rules[1..], rest);
      Associate(OneText(rules[0]), tail, rest);
      if rules[0].NodeRule? {
        ScanOneText(rules[0], tail + rest);
        Cons(CanonicalRule(rules[0]), NodeRules(rules[1..]));
      } else {
        assert "" + (tail + rest) == tail + rest;
      }
    }
  }

  lemma ScanOneText(rule: Rule, rest: string)
    requires GoodRule(rule, false) && rule.NodeRule? && ClosedMap(AttrMap(rule.attrs))
    ensures Scan(Initial, OneText(rule) + rest) == OneRuleTokens(CanonicalRule(rule), Scan(Initial, rest))
  {
    GoodAttrsMap(rule.attrs, false);
    ScanNodeText(rule.name, AttrMap(rule.attrs), rest);
  }

  lemma CanonicalApply(a: State, b: State, rule: Rule)
    requires GoodRule(rule, false) && rule.NodeRule? && a.nodes == b.nodes && a.glob == b.glob
    ensures var a', b' := Apply(a, CanonicalRule(rule)), Apply(b, rule);
            a' == a.(nodes := b'.nodes, glob := b'.glob)
  {
    GoodAttrsMap(rule.attrs, false);
    NodeRuleOfMap(rule.name, AttrMap(rule.attrs));
  }

  /** Reading the definitions back does to the node fields what the original rules did. */
  lemma {:induction false} ReplayNodeRules(a: State, b: State, rules: seq<Rule>)
    requires GoodRules(rules, false)
    requires a.nodes == b.nodes && a.glob == b.glob
    ensures Replay(a, NodeRules(rules))
            == a.(nodes := Replay(b, rules).nodes, glob := Replay(b, rules).glob)
    decreases |rules|
  {
    if rules != [] {
      var b' := Apply(b, rules[0]);
      if rules[0].NodeRule? {
        CanonicalApply(a, b, rules[0]);
        Cons(CanonicalRule(rules[0]), NodeRules(rules[1..]));
        ReplayNodeRules(Apply(a, CanonicalRule(rules[0])), b', rules[1..]);
      } else {
        ReplayNodeRules(a, b', rules[1..]);
      }
    }
  }

  // ---------- the driver after parsing a text ----------

  /** The driver's fields after an error-free parse. */
  function Instance(text: string): Option<State> {
    match Parse(Scan(Initial, text))
    case None => None
    case Some(rules) => Some(Replay(EMPTY, rules))
  }

  /** A driver that knows the node definitions of `st` and nothing else. */
  function NodesOnly(st: State): State {
    EMPTY.(nodes := st.nodes, glob := st.glob)
  }

  /** The printed strings of an accepted text all have their closing quotes. */
  predicate DefinitionsClosed(text: string) {
    var r := Parse(Scan(Initial, text));
    r.Some? && ClosedRules(r.value)
  }

  /** A caller can see to it by leaving NUL out of the text. */
  lemma NulFreeIsClosed(text: string)
    requires Instance(text).Some? && NulFree(text)
    ensures DefinitionsClosed(text)
  {
    AcceptedRulesAreGood(text, true);
    GoodIsClosed(Parse(Scan(Initial, text)).value);
  }

  lemma GoodIsClosed(rules: seq<Rule>)
    requires GoodRules(rules, true)
    ensures ClosedRules(rules)
  {
    forall i | 0 <= i < |rules| && rules[i].NodeRule?
      ensures ClosedMap(AttrMap(rules[i].attrs))
    {
      assert GoodRule(rules[i], true);
      GoodAttrsMap(rules[i].attrs, true);
    }
  }

  /**
   Node definitions survive every hop: parsing the glob in front of any text is parsing that text
   in a driver that already has the same `nodes_` and the same `node_glob_`.
   */
  lemma GlobSurvives(text: string, t: string)
    requires Instance(text).Some? && DefinitionsClosed(text)
    ensures var st := Instance(text).value;
            Instance(st.glob + t)
            == match Parse(Scan(Initial, t))
               case None => None
               case Some(rules) => Some(Replay(NodesOnly(st), rules))
  {
    var st, rules := Instance(text).value, Parse(Scan(Initial, text)).value;
    AcceptedRulesAreGood(text, false);
    GlobIsText(EMPTY, rules);
    assert st.glob == GlobText(rules);
    ScanGlob(rules, t);
    var tail := Parse(Scan(Initial, t));
    ParseComplete(NodeRules(rules), Scan(Initial, t));
    ReplayNodeRules(EMPTY, EMPTY, rules);
    if tail.Some? {
      ReplayAppend(EMPTY, NodeRules(rules), tail.value);
    }
  }

  /** In particular the glob alone rebuilds the same `nodes_` and the same `node_glob_`. */
  lemma GlobIsFixpoint(text: string)
    requires Instance(text).Some? && DefinitionsClosed(text)
    ensures Instance(Instance(text).value.glob) == Some(NodesOnly(Instance(text).value))
  {
    GlobSurvives(text, "");
    var glob := Instance(text).value.glob;
    assert glob + "" == glob;
  }

  // ---------- and only then does the glob say what it was printed from ----------

  lemma {:induction false} NoNulInEntries(keys: seq<string>, m: Attributes)
    requires GoodMap(m) && forall k | k in keys :: k in m
    ensures NulFree(EntriesText(keys, m))
  {
    if keys != [] {
      var k := keys[0];
      assert k in m;
      NoNulInEntries(keys[1..], m);
      NoNulInEntry(k, m[k]);
      NulFreeAppend(EntryText(k, m[k]), EntriesText(keys[1..], m));
    }
  }

  lemma NoNulInEntry(key: string, val: string)
    requires GoodName(key) && GoodText(val)
    ensures NulFree(EntryText(key, val))
  {
    NoNulInWord(key);
    NoNulInText(val);
    hide IsIdent, GoodText;
    NulFreeAppend("  ", key);
    NulFreeAppend("  " + key, " = ");
    NulFreeAppend("  " + key + " = ", val);
    NulFreeAppend("  " + key + " = " + val, ",\n");
  }

  lemma NoNulInWord(s: string)
    requires IsIdent(s) || IsNumeral(s)
    ensures NulFree(s)
  {
    assert forall i | 0 <= i < |s| :: IsWordChar(s[i]);
  }

  lemma NoNulInText(s: string)
    requires GoodText(s)
    ensures NulFree(s)
  {
    if !StartsQuoted(s) {
      NoNulInWord(s);
    }
  }

  lemma {:induction false} GlobIsNulFree(rules: seq<Rule>)
    requires GoodRules(rules, false)
    ensures NulFree(GlobText(rules))
  {
    if rules != [] {
      GlobIsNulFree(rules[1..]);
      OneIsNulFree(rules[0]);
      NulFreeAppend(OneText(rules[0]), GlobText(rules[1..]));
    }
  }

  lemma OneIsNulFree(rule: Rule)
    requires GoodRule(rule, false)
    ensures NulFree(OneText(rule))
  {
    if rule.NodeRule? {
      var m := AttrMap(rule.attrs);
      GoodAttrsMap(rule.attrs, false);
      SortedKeysIn(m);
      NoNulInWord(rule.name);
      NoNulInEntries(SortedKeys(m.Keys), m);
    }
  }

  lemma {:induction false} CanonicalClosed(rules: seq<Rule>)
    requires GoodRules(rules, false) && ClosedRules(NodeRules(rules))
    ensures ClosedRules(rules)
  {
    if rules != [] {
      var more := NodeRules(rules[1..]);
      if rules[0].NodeRule? {
        Cons(CanonicalRule(rules[0]), more);
        assert ClosedMap(AttrMap(NodeRules(rules)[0].attrs));
        GoodAttrsMap(rules[0].attrs, false);
        NodeRuleOfMap(rules[0].name, AttrMap(rules[0].attrs));
        assert forall i | 0 <= i < |more| :: more[i] == NodeRules(rules)[i + 1];
      }
      CanonicalClosed(rules[1..]);
      assert forall i | 0 < i < |rules| :: rules[i] == rules[1..][i - 1];
    }
  }

  /** The glob parses back to the definitions it was printed from exactly if no string was cut off. */
  lemma GlobReadsBack(text: string)
    requires Instance(text).Some?
    ensures var rules := Parse(Scan(Initial, text)).value;
            && GoodRules(rules, false)
            && (Parse(Scan(Initial, Instance(text).value.glob)) == Some(NodeRules(rules)) <==> DefinitionsClosed(text))
  {
    var rules := Parse(Scan(Initial, text)).value;
    var glob := GlobText(rules);
    AcceptedRulesAreGood(text, false);
    GlobIsText(EMPTY, rules);
    assert Instance(text).value.glob == glob;
    if ClosedRules(rules) {
      ScanGlob(rules, "");
      assert glob + "" == glob;
      ParseExact(Scan(Initial, glob), NodeRules(rules));
    }
    if Parse(Scan(Initial, glob)) == Some(NodeRules(rules)) {
      GlobIsNulFree(rules);
      AcceptedRulesAreGood(glob, true);
      GoodIsClosed(NodeRules(rules));
      CanonicalClosed(rules);
    }
  }
}
