/**
 The semantic actions of src/fidi_parser.yy and the driver callbacks of src/fidi_driver.cc:58-100,
 as functions on the driver's state.
 */
module Actions {
  import opened Lexical
  import opened Grammar
  import opened Ordered

  type Attributes = map<string, string>

  /** `edge_attr` is the pair (repeat, sequence). */
  datatype EdgeDetails = EdgeDetails(name: string, blob: string, repeat: nat, sequence: nat)

  datatype State = State(
    top: Attributes,
    nodes: map<string, Attributes>,
    glob: string,
    destinations: set<string>,
    edges: seq<EdgeDetails>)

  const EMPTY := State(map[], map[], "", {}, [])

  function ValueText(v: Value): string {
    match v
    case Quoted(text) => text
    case Name(name) => name
    case Number(n) => Decimal(n)
  }

  /** std::map::insert keeps an entry that is already there. */
  function Insert(m: Attributes, key: string, value: string): Attributes {
    if key in m then m else m[key := value]
  }

  /** The action of `attrlist attr`, over a whole list: the first definition of a key wins. */
  function AttrMap(attrs: seq<Attr>): Attributes {
    if attrs == [] then map[]
    else
      var front, a := attrs[..|attrs| - 1], attrs[|attrs| - 1];
      Insert(AttrMap(front), a.key, ValueText(a.val))
  }

  lemma AttrMapSnoc(attrs: seq<Attr>, a: Attr)
    ensures AttrMap(attrs + [a]) == Insert(AttrMap(attrs), a.key, ValueText(a.val))
  {
    assert (attrs + [a])[..|attrs|] == attrs;
  }

  /** The value of the first attribute called `key`. */
  function FirstValue(attrs: seq<Attr>, key: string): Option<string> {
    if attrs == [] then None
    else if attrs[0].key == key then Some(ValueText(attrs[0].val))
    else FirstValue(attrs[1..], key)
  }

  lemma {:induction false} FirstValueSnoc(attrs: seq<Attr>, a: Attr, key: string)
    ensures FirstValue(attrs + [a], key)
            == if FirstValue(attrs, key).Some? then FirstValue(attrs, key) else FirstValue([a], key)
  {
    if attrs == [] {
      assert attrs + [a] == [a];
    } else {
      assert (attrs + [a])[1..] == attrs[1..] + [a];
      FirstValueSnoc(attrs[1..], a, key);
    }
  }

  lemma {:induction false} FirstDefinitionWins(attrs: seq<Attr>, key: string)
    ensures FirstValue(attrs, key) == if key in AttrMap(attrs) then Some(AttrMap(attrs)[key]) else None
  {
    if attrs != [] {
      var n := |attrs| - 1;
      FirstDefinitionWins(attrs[..n], key);
      FirstValueSnoc(attrs[..n], attrs[n], key);
      assert attrs == attrs[..n] + [attrs[n]];
      assert [attrs[n]][1..] == [];
    }
  }

  /** The actions of `edgeattr`: a default-built pair, then one assignment per option. */
  function EdgePair(opts: seq<EdgeOpt>): (nat, nat) {
    if opts == [] then (0, 0)
    else
      var before := EdgePair(opts[..|opts| - 1]);
      match opts[|opts| - 1]
      case Repeat(n) => (n, if before.1 != 0 then before.1 else 0)
      case Sequence(n) => (if before.0 != 0 then before.0 else 0, n)
  }

  predicate LastWins(opts: seq<EdgeOpt>, isRepeat: bool, value: nat) {
    || (value == 0 && forall i | 0 <= i < |opts| :: opts[i].Repeat? != isRepeat)
    || exists i | 0 <= i < |opts| ::
         && opts[i].Repeat? == isRepeat && opts[i].n == value
         && forall j | i < j < |opts| :: opts[j].Repeat? != isRepeat
  }

  /** The last `repeat` and the last `sequence` win; a missing one is zero. */
  lemma {:induction false} EdgePairLastWins(opts: seq<EdgeOpt>)
    ensures LastWins(opts, true, EdgePair(opts).0)
    ensures LastWins(opts, false, EdgePair(opts).1)
  {
    if opts != [] {
      var n := |opts| - 1;
      EdgePairLastWins(opts[..n]);
      assert forall i | 0 <= i < n :: opts[..n][i] == opts[i];
      assert forall i | 0 <= i < |opts| :: i < n || opts[i] == opts[n];
    }
  }

  /** The attributes among the items of a request; calls leave the map alone. */
  function ItemAttrs(items: seq<Item>): seq<Attr> {
    if items == [] then []
    else if items[0].AttrItem? then [items[0].attr] + ItemAttrs(items[1..])
    else ItemAttrs(items[1..])
  }

  function Edge(item: Item): EdgeDetails
    requires item.EdgeItem?
  {
    var pair := EdgePair(item.opts);
    EdgeDetails(item.dest, PREFIX + item.blob, pair.0, pair.1)
  }

  function ItemEdges(items: seq<Item>): seq<EdgeDetails> {
    if items == [] then []
    else if items[0].EdgeItem? then [Edge(items[0])] + ItemEdges(items[1..])
    else ItemEdges(items[1..])
  }

  function Names(edges: seq<EdgeDetails>): set<string> {
    set i | 0 <= i < |edges| :: edges[i].name
  }

  /** `HandleEdge` for each call in turn. */
  function HandleEdges(st: State, edges: seq<EdgeDetails>): State {
    st.(destinations := st.destinations + Names(edges), edges := st.edges + edges)
  }

  function HandleTop(st: State, attrs: Attributes): State {
    st.(top := attrs)
  }

  // ---------- HandleNode ----------

  function Unquoted(s: string): (r: string)
    ensures '"' !in r
    ensures '"' !in s ==> r == s
  {
    if s == "" then ""
    else if s[0] == '"' then Unquoted(s[1..])
    else [s[0]] + Unquoted(s[1..])
  }

  function UnquoteHost(m: Attributes): Attributes {
    if "hostname" in m then m["hostname" := Unquoted(m["hostname"])] else m
  }

  /** Union of two maps that keeps the left entry. */
  function LeftUnion(a: Attributes, b: Attributes): Attributes {
    b + a
  }

  function EntriesText(keys: seq<string>, m: Attributes): string
    requires forall k | k in keys :: k in m
  {
    if keys == [] then ""
    else "  " + keys[0] + " = " + m[keys[0]] + ",\n" + EntriesText(keys[1..], m)
  }

  lemma SortedKeysIn(m: Attributes)
    ensures forall k :: k in SortedKeys(m.Keys) <==> k in m
  {
    var ks := SortedKeys(m.Keys);
    assert forall k :: k in ks <==> k in multiset(ks);
  }

  /** How `HandleNode` prints a definition into `node_glob_`: the raw list, in key order. */
  function NodeText(name: string, m: Attributes): string {
    SortedKeysIn(m);
    name + " [\n" + EntriesText(SortedKeys(m.Keys), m) + "]\n"
  }

  function HandleNode(st: State, name: string, list: Attributes): State {
    var merged := if name in st.nodes then LeftUnion(st.nodes[name], list) else list;
    st.(nodes := st.nodes[name := UnquoteHost(merged)], glob := st.glob + NodeText(name, list))
  }

  // ---------- a whole input ----------

  function Apply(st: State, rule: Rule): State {
    match rule
    case NodeRule(name, attrs) => HandleNode(st, name, AttrMap(attrs))
    case TopRule(items) => HandleTop(HandleEdges(st, ItemEdges(items)), AttrMap(ItemAttrs(items)))
  }

  function Replay(st: State, rules: seq<Rule>): State
    decreases |rules|
  {
    if rules == [] then st else Replay(Apply(st, rules[0]), rules[1..])
  }

  lemma {:induction false} ReplayAppend(st: State, a: seq<Rule>, b: seq<Rule>)
    ensures Replay(st, a + b) == Replay(Replay(st, a), b)
    decreases |a|
  {
    if a == [] {
      assert a + b == b;
    } else {
      assert (a + b)[1..] == a[1..] + b;
      ReplayAppend(Apply(st, a[0]), a[1..], b);
    }
  }

  lemma ReplayLast(st: State, rules: seq<Rule>)
    requires rules != []
    ensures Replay(st, rules) == Apply(Replay(st, rules[..|rules| - 1]), rules[|rules| - 1])
  {
    var n := |rules| - 1;
    ReplayAppend(st, rules[..n], [rules[n]]);
    assert rules[..n] + [rules[n]] == rules;
    assert [rules[n]][1..] == [];
  }

  // ---------- what `nodes_` holds ----------

  /** All attribute lists given for `name`, merged first-wins in order of definition. */
  function Definitions(rules: seq<Rule>, name: string): Option<Attributes> {
    if rules == [] then None
    else
      var before := Definitions(rules[..|rules| - 1], name);
      match rules[|rules| - 1]
      case TopRule(_) => before
      case NodeRule(n, attrs) =>
        if n != name then before
        else if before.None? then Some(AttrMap(attrs))
        else Some(LeftUnion(before.value, AttrMap(attrs)))
  }

  lemma UnquoteMerged(a: Attributes, b: Attributes)
    ensures UnquoteHost(LeftUnion(UnquoteHost(a), b)) == UnquoteHost(LeftUnion(a, b))
  {
  }

  /** Node merging is a left-biased union, with the quotes gone from the hostname. */
  lemma {:induction false} NodesAreMerged(rules: seq<Rule>, name: string)
    ensures var nodes := Replay(EMPTY, rules).nodes;
            match Definitions(rules, name)
            case None => name !in nodes
            case Some(m) => name in nodes && nodes[name] == UnquoteHost(m)
  {
    if rules != [] {
      var n := |rules| - 1;
      NodesAreMerged(rules[..n], name);
      ReplayLast(EMPTY, rules);
      var before := Definitions(rules[..n], name);
      if rules[n].NodeRule? && rules[n].name == name && before.Some? {
        UnquoteMerged(before.value, AttrMap(rules[n].attrs));
      }
    }
  }

  /** So a hostname never holds a double quote: that branch of the sanity checks is dead. */
  lemma HostnamesHaveNoQuotes(rules: seq<Rule>, name: string)
    ensures var nodes := Replay(EMPTY, rules).nodes;
            name in nodes && "hostname" in nodes[name] ==> '"' !in nodes[name]["hostname"]
  {
    NodesAreMerged(rules, name);
  }

  /** Every queued edge has its name in `destinations_`, and nothing else is there. */
  lemma {:induction false} DestinationsAreEdgeNames(rules: seq<Rule>)
    ensures var st := Replay(EMPTY, rules);
            st.destinations == Names(st.edges)
  {
    if rules != [] {
      var n := |rules| - 1;
      DestinationsAreEdgeNames(rules[..n]);
      var before := Replay(EMPTY, rules[..n]);
      ReplayLast(EMPTY, rules);
      if rules[n].TopRule? {
        NamesAppend(before.edges, ItemEdges(rules[n].items));
      }
    }
  }

  lemma NamesAppend(a: seq<EdgeDetails>, b: seq<EdgeDetails>)
    ensures Names(a + b) == Names(a) + Names(b)
  {
    forall x | x in Names(a) + Names(b)
      ensures x in Names(a + b)
    {
      if i :| 0 <= i < |a| && a[i].name == x {
        assert (a + b)[i].name == x;
      } else {
        var j :| 0 <= j < |b| && b[j].name == x;
        assert (a + b)[|a| + j].name == x;
      }
    }
  }

  // ---------- the same, read off the definitions in the order in which they were written ----------

  /** The value of the first attribute called `key` in any definition of `name`. */
  function FirstNodeValue(rules: seq<Rule>, name: string, key: string): Option<string> {
    if rules == [] then None
    else if rules[0].NodeRule? && rules[0].name == name && FirstValue(rules[0].attrs, key).Some? then
      FirstValue(rules[0].attrs, key)
    else FirstNodeValue(rules[1..], name, key)
  }

  lemma {:induction false} FirstNodeValueSnoc(rules: seq<Rule>, rule: Rule, name: string, key: string)
    ensures FirstNodeValue(rules + [rule], name, key)
            == if FirstNodeValue(rules, name, key).Some? then FirstNodeValue(rules, name, key)
               else FirstNodeValue([rule], name, key)
  {
    if rules == [] {
      assert rules + [rule] == [rule];
    } else {
      assert (rules + [rule])[1..] == rules[1..] + [rule];
      FirstNodeValueSnoc(rules[1..], rule, name, key);
    }
  }

  lemma {:induction false} DefinitionsAreFirst(rules: seq<Rule>, name: string, key: string)
    ensures match Definitions(rules, name)
            case None => FirstNodeValue(rules, name, key).None?
            case Some(m) => FirstNodeValue(rules, name, key) == if key in m then Some(m[key]) else None
  {
    if rules != [] {
      var n := |rules| - 1;
      DefinitionsAreFirst(rules[..n], name, key);
      FirstNodeValueSnoc(rules[..n], rules[n], name, key);
      assert rules == rules[..n] + [rules[n]];
      assert [rules[n]][1..] == [];
      if rules[n].NodeRule? {
        FirstDefinitionWins(rules[n].attrs, key);
      }
    }
  }

  /** An attribute of a node is the first one written for it, the hostname without its quotes. */
  lemma NodeValueIsFirst(rules: seq<Rule>, name: string, key: string)
    ensures var nodes := Replay(EMPTY, rules).nodes;
            match FirstNodeValue(rules, name, key)
            case None => name in nodes ==> key !in nodes[name]
            case Some(v) =>
              name in nodes && key in nodes[name] && nodes[name][key] == if key == "hostname" then Unquoted(v) else v
  {
    NodesAreMerged(rules, name);
    DefinitionsAreFirst(rules, name, key);
  }

  /** A string loses its two quotes and nothing else. */
  lemma UnquotedString(s: string)
    requires IsQuoted(s)
    ensures Unquoted(s) == s[1..|s| - 1]
  {
    var inner := s[1..|s| - 1];
    assert s == ['"'] + (inner + ['"']);
    assert s[1..] == inner + ['"'];
    assert forall i | 0 <= i < |inner| :: inner[i] == s[i + 1];
    UnquotedEnd(inner);
  }

  lemma {:induction false} UnquotedEnd(s: string)
    requires '"' !in s
    ensures Unquoted(s + ['"']) == s
  {
    if s == "" {
      assert (s + ['"'])[1..] == "";
    } else {
      assert (s + ['"'])[1..] == s[1..] + ['"'];
      UnquotedEnd(s[1..]);
    }
  }
}
