/**
 The error-free grammar of src/fidi_parser.yy:120-147 as syntax trees, the tokens each tree stands
 for, and a deterministic parser that inverts them.  A nested request is an unparsed blob here.
 */
module Grammar {
  import opened Lexical
  import opened Scanner
  import opened Sequences

  datatype Value = Quoted(text: string) | Name(name: string) | Number(n: nat)
  datatype Attr = Attr(key: string, val: Value)
  datatype EdgeOpt = Repeat(n: nat) | Sequence(n: nat)
  datatype Item = AttrItem(attr: Attr) | EdgeItem(dest: string, opts: seq<EdgeOpt>, blob: string)
  datatype Rule = NodeRule(name: string, attrs: seq<Attr>) | TopRule(items: seq<Item>)

  // ---------- the tokens of a tree, followed by `rest` ----------

  function ValueToken(v: Value): Token {
    match v
    case Quoted(text) => STRING(text)
    case Name(name) => IDENT(name)
    case Number(n) => NUMBER(n)
  }

  function AttrTokens(attrs: seq<Attr>, rest: seq<Token>): seq<Token> {
    if attrs == [] then rest
    else [IDENT(attrs[0].key), EQUALS, ValueToken(attrs[0].val), COMMA] + AttrTokens(attrs[1..], rest)
  }

  function OptTokens(opts: seq<EdgeOpt>, rest: seq<Token>): seq<Token> {
    if opts == [] then rest
    else [if opts[0].Repeat? then REPEAT else SEQUENCE, EQUALS, NUMBER(opts[0].n)] + OptTokens(opts[1..], rest)
  }

  function EdgeTokens(dest: string, opts: seq<EdgeOpt>, blob: string, rest: seq<Token>): seq<Token> {
    [DASH, ARROW, IDENT(dest)] + OptTokens(opts, [BLOB(blob)] + rest)
  }

  function ItemTokens(items: seq<Item>, rest: seq<Token>): seq<Token> {
    if items == [] then rest
    else
      match items[0]
      case AttrItem(attr) => AttrTokens([attr], ItemTokens(items[1..], rest))
      case EdgeItem(dest, opts, blob) => EdgeTokens(dest, opts, blob, ItemTokens(items[1..], rest))
  }

  function OneRuleTokens(rule: Rule, rest: seq<Token>): seq<Token> {
    match rule
    case NodeRule(name, attrs) => [IDENT(name), OBRACKET] + AttrTokens(attrs, [CBRACKET] + rest)
    case TopRule(items) => [OBRACKET] + ItemTokens(items, [CBRACKET] + rest)
  }

  function RuleTokens(rules: seq<Rule>, rest: seq<Token>): seq<Token> {
    if rules == [] then rest else OneRuleTokens(rules[0], RuleTokens(rules[1..], rest))
  }

  // ---------- the parser; each contract says the result is a derivation of the input ----------

  function ParseValue(t: Token): (r: Option<Value>)
    ensures r.Some? ==> t == ValueToken(r.value)
  {
    match t
    case STRING(text) => Some(Quoted(text))
    case IDENT(name) => Some(Name(name))
    case NUMBER(n) => Some(Number(n))
    case _ => None
  }

  /** The rule `attr`: a name, "=", a value and a comma. */
  function ParseAttr(ts: seq<Token>): (r: Option<Attr>)
    ensures r.Some? ==> |ts| >= 4 && ts == AttrTokens([r.value], ts[4..])
  {
    if |ts| >= 4 && ts[0].IDENT? && ts[1] == EQUALS && ParseValue(ts[2]).Some? && ts[3] == COMMA then
      assert ts == ts[..4] + ts[4..];
      Some(Attr(ts[0].name, ParseValue(ts[2]).value))
    else None
  }

  /** As many attributes as there are, and what follows them. */
  function ParseAttrs(ts: seq<Token>): (r: (seq<Attr>, seq<Token>))
    ensures ts == AttrTokens(r.0, r.1)
    ensures |r.1| <= |ts|
    decreases |ts|
  {
    match ParseAttr(ts)
    case None => ([], ts)
    case Some(attr) =>
      var (attrs, rest) := ParseAttrs(ts[4..]);
      assert ([attr] + attrs)[1..] == attrs;
      ([attr] + attrs, rest)
  }

  function ParseOpts(ts: seq<Token>): (r: (seq<EdgeOpt>, seq<Token>))
    ensures ts == OptTokens(r.0, r.1)
    ensures |r.1| <= |ts|
    decreases |ts|
  {
    if |ts| >= 3 && (ts[0] == REPEAT || ts[0] == SEQUENCE) && ts[1] == EQUALS && ts[2].NUMBER? then
      var opt := if ts[0] == REPEAT then Repeat(ts[2].value) else Sequence(ts[2].value);
      var (opts, rest) := ParseOpts(ts[3..]);
      assert ([opt] + opts)[1..] == opts;
      assert ts == ts[..3] + ts[3..];
      ([opt] + opts, rest)
    else ([], ts)
  }

  /** The rule `edgerule`, with the tokens that follow it. */
  function ParseEdge(ts: seq<Token>): (r: Option<(Item, seq<Token>)>)
    ensures r.Some? ==>
              var (edge, rest) := r.value;
              && edge.EdgeItem? && |rest| < |ts|
              && ts == EdgeTokens(edge.dest, edge.opts, edge.blob, rest)
  {
    if |ts| >= 3 && ts[0] == DASH && ts[1] == ARROW && ts[2].IDENT? then
      var (opts, rest) := ParseOpts(ts[3..]);
      if rest != [] && rest[0].BLOB? then
        assert ts == [DASH, ARROW, IDENT(ts[2].name)] + ts[3..];
        assert rest == [BLOB(rest[0].blob)] + rest[1..];
        Some((EdgeItem(ts[2].name, opts, rest[0].blob), rest[1..]))
      else None
    else None
  }

  function ParseItems(ts: seq<Token>): (r: (seq<Item>, seq<Token>))
    ensures ts == ItemTokens(r.0, r.1)
    ensures |r.1| <= |ts|
    decreases |ts|
  {
    match ParseAttr(ts)
    case Some(attr) =>
      var (items, rest) := ParseItems(ts[4..]);
      assert ([AttrItem(attr)] + items)[1..] == items;
      ([AttrItem(attr)] + items, rest)
    case None =>
      match ParseEdge(ts)
      case None => ([], ts)
      case Some((edge, after)) =>
        var (items, rest) := ParseItems(after);
        assert ([edge] + items)[1..] == items;
        ([edge] + items, rest)
  }

  function ParseRule(ts: seq<Token>): (r: Option<(Rule, seq<Token>)>)
    ensures r.Some? ==> |r.value.1| < |ts| && ts == OneRuleTokens(r.value.0, r.value.1)
  {
    if |ts| >= 2 && ts[0].IDENT? && ts[1] == OBRACKET then
      var (attrs, rest) := ParseAttrs(ts[2..]);
      if rest != [] && rest[0] == CBRACKET then
        assert ts == [IDENT(ts[0].name), OBRACKET] + ts[2..];
        assert rest == [CBRACKET] + rest[1..];
        Some((NodeRule(ts[0].name, attrs), rest[1..]))
      else None
    else if ts != [] && ts[0] == OBRACKET then
      var (items, rest) := ParseItems(ts[1..]);
      if rest != [] && rest[0] == CBRACKET then
        assert ts == [OBRACKET] + ts[1..];
        assert rest == [CBRACKET] + rest[1..];
        Some((TopRule(items), rest[1..]))
      else None
    else None
  }

  /** The start symbol: None when the input is not in the language. */
  function Parse(ts: seq<Token>): (r: Option<seq<Rule>>)
    ensures r.Some? ==> RuleTokens(r.value, []) == ts
    decreases |ts|
  {
    if ts == [] then Some([])
    else
      match ParseRule(ts)
      case None => None
      case Some((rule, after)) =>
        match Parse(after)
        case None => None
        case Some(rules) =>
          assert ([rule] + rules)[1..] == rules;
          Some([rule] + rules)
  }

  // ---------- completeness ----------

  lemma {:induction false} ParseAttrsComplete(attrs: seq<Attr>, rest: seq<Token>)
    requires ParseAttr(rest).None?
    ensures ParseAttrs(AttrTokens(attrs, rest)) == (attrs, rest)
  {
    if attrs != [] {
      ParseAttrHead(attrs[0], AttrTokens(attrs[1..], rest));
      ParseAttrsComplete(attrs[1..], rest);
      assert [attrs[0]] + attrs[1..] == attrs;
    }
  }

  lemma ParseAttrHead(attr: Attr, after: seq<Token>)
    ensures var ts := [IDENT(attr.key), EQUALS, ValueToken(attr.val), COMMA] + after;
            ParseAttr(ts) == Some(attr) && ts[4..] == after
  {
  }

  lemma {:induction false} ParseOptsComplete(opts: seq<EdgeOpt>, rest: seq<Token>)
    requires rest != [] && rest[0].BLOB?
    ensures ParseOpts(OptTokens(opts, rest)) == (opts, rest)
  {
    if opts != [] {
      assert OptTokens(opts, rest)[3..] == OptTokens(opts[1..], rest);
      ParseOptsComplete(opts[1..], rest);
      assert [opts[0]] + opts[1..] == opts;
    }
  }

  lemma ParseEdgeHead(dest: string, opts: seq<EdgeOpt>, blob: string, after: seq<Token>)
    ensures var ts := EdgeTokens(dest, opts, blob, after);
            ParseAttr(ts).None? && ParseEdge(ts) == Some((EdgeItem(dest, opts, blob), after))
  {
    var ts := EdgeTokens(dest, opts, blob, after);
    assert ts[3..] == OptTokens(opts, [BLOB(blob)] + after);
    ParseOptsComplete(opts, [BLOB(blob)] + after);
  }

  lemma {:induction false} ParseItemsComplete(items: seq<Item>, rest: seq<Token>)
    requires rest != [] && rest[0] == CBRACKET
    ensures ParseItems(ItemTokens(items, rest)) == (items, rest)
  {
    if items != [] {
      var after := ItemTokens(items[1..], rest);
      ParseItemsComplete(items[1..], rest);
      match items[0] {
        case AttrItem(attr) =>
          assert AttrTokens([attr], after) == [IDENT(attr.key), EQUALS, ValueToken(attr.val), COMMA] + after;
          ParseAttrHead(attr, after);
        case EdgeItem(dest, opts, blob) =>
          ParseEdgeHead(dest, opts, blob, after);
      }
      assert [items[0]] + items[1..] == items;
    }
  }

  lemma ParseRuleHead(rule: Rule, after: seq<Token>)
    ensures ParseRule(OneRuleTokens(rule, after)) == Some((rule, after))
  {
    var ts := OneRuleTokens(rule, after);
    match rule
    case NodeRule(name, attrs) =>
      assert ts[2..] == AttrTokens(attrs, [CBRACKET] + after);
      ParseAttrsComplete(attrs, [CBRACKET] + after);
    case TopRule(items) =>
      assert ts[1..] == ItemTokens(items, [CBRACKET] + after);
      ParseItemsComplete(items, [CBRACKET] + after);
  }

  lemma ParseHead(rule: Rule, after: seq<Token>)
    ensures Parse(OneRuleTokens(rule, after)) == After([rule], Parse(after))
  {
    ParseRuleHead(rule, after);
  }

  function After(rules: seq<Rule>, r: Option<seq<Rule>>): Option<seq<Rule>> {
    if r.Some? then Some(rules + r.value) else None
  }

  /** Parsing inverts writing a tree out as tokens, and goes on with whatever follows. */
  lemma {:induction false} ParseComplete(rules: seq<Rule>, rest: seq<Token>)
    ensures Parse(RuleTokens(rules, rest)) == After(rules, Parse(rest))
  {
    var tail := Parse(rest);
    if rules == [] {
      assert tail.Some? ==> [] + tail.value == tail.value;
    } else {
      ParseHead(rules[0], RuleTokens(rules[1..], rest));
      ParseComplete(rules[1..], rest);
      if tail.Some? {
        Associate([rules[0]], rules[1..], tail.value);
        assert [rules[0]] + rules[1..] == rules;
      }
    }
  }

  /** The parser accepts exactly the grammar, and its tree is the only derivation. */
  lemma ParseExact(ts: seq<Token>, rules: seq<Rule>)
    ensures Parse(ts) == Some(rules) <==> RuleTokens(rules, []) == ts
  {
    ParseComplete(rules, []);
    assert rules + [] == rules;
  }

  // ---------- tokens that the grammar has no use for ----------

  /** No character that is passed on as it is, and no word `source`. */
  predicate Valid(ts: seq<Token>) {
    forall i | 0 <= i < |ts| :: !ts[i].Invalid? && ts[i] != SOURCE
  }

  lemma ValidAppend(a: seq<Token>, b: seq<Token>)
    ensures Valid(a + b) <==> Valid(a) && Valid(b)
  {
    assert forall i | 0 <= i < |a| :: (a + b)[i] == a[i];
    assert forall i | 0 <= i < |b| :: (a + b)[|a| + i] == b[i];
  }

  lemma {:induction false} ValidAttrs(attrs: seq<Attr>, rest: seq<Token>)
    requires Valid(rest)
    ensures Valid(AttrTokens(attrs, rest))
  {
    if attrs != [] {
      ValidAttrs(attrs[1..], rest);
      ValidAppend([IDENT(attrs[0].key), EQUALS, ValueToken(attrs[0].val), COMMA], AttrTokens(attrs[1..], rest));
    }
  }

  lemma {:induction false} ValidOpts(opts: seq<EdgeOpt>, rest: seq<Token>)
    requires Valid(rest)
    ensures Valid(OptTokens(opts, rest))
  {
    if opts != [] {
      ValidOpts(opts[1..], rest);
      ValidAppend([if opts[0].Repeat? then REPEAT else SEQUENCE, EQUALS, NUMBER(opts[0].n)],
                  OptTokens(opts[1..], rest));
    }
  }

  lemma {:induction false} ValidItems(items: seq<Item>, rest: seq<Token>)
    requires Valid(rest)
    ensures Valid(ItemTokens(items, rest))
  {
    if items != [] {
      var more := ItemTokens(items[1..], rest);
      ValidItems(items[1..], rest);
      match items[0]
      case AttrItem(attr) => ValidAttrs([attr], more);
      case EdgeItem(dest, opts, blob) =>
        ValidAppend([BLOB(blob)], more);
        ValidOpts(opts, [BLOB(blob)] + more);
        ValidAppend([DASH, ARROW, IDENT(dest)], OptTokens(opts, [BLOB(blob)] + more));
    }
  }

  lemma {:induction false} ValidRules(rules: seq<Rule>)
    ensures Valid(RuleTokens(rules, []))
  {
    if rules != [] {
      var more := RuleTokens(rules[1..], []);
      ValidRules(rules[1..]);
      ValidAppend([CBRACKET], more);
      match rules[0]
      case NodeRule(name, attrs) =>
        ValidAttrs(attrs, [CBRACKET] + more);
        ValidAppend([IDENT(name), OBRACKET], AttrTokens(attrs, [CBRACKET] + more));
      case TopRule(items) =>
        ValidItems(items, [CBRACKET] + more);
        ValidAppend([OBRACKET], ItemTokens(items, [CBRACKET] + more));
    }
  }

  /** One such token anywhere, and the input is refused. */
  lemma InvalidIsRefused(ts: seq<Token>, i: nat)
    requires i < |ts| && (ts[i].Invalid? || ts[i] == SOURCE)
    ensures Parse(ts).None?
  {
    var r := Parse(ts);
    if r.Some? {
      ValidRules(r.value);
    }
  }
}
