/**
 Parsing as it runs: tokens come from the scanner one at a time and the semantic actions of
 src/fidi_parser.yy:121-147 update maps and the driver on the way.
 */
module Parsers {
  import opened Lexical
  import opened Scanner
  import opened FlexLexer
  import opened Grammar
  import opened Actions
  import opened Drivers

  class Parser {
    const scanner: FidiFlexLexer
    const driver: Driver
    var look: Option<Token>

    ghost predicate Valid()
      reads this, scanner, driver
    {
      && scanner.Valid()
      && driver.Valid()
      && (look.None? ==> scanner.Remaining() == [])
    }

    /** The lookahead token and everything behind it. */
    ghost function Pending(): seq<Token>
      requires Valid()
      reads this, scanner, driver
    {
      if look.None? then [] else [look.value] + scanner.Remaining()
    }

    constructor (scanner: FidiFlexLexer, driver: Driver)
      requires scanner.Valid() && driver.Valid()
      modifies scanner
      ensures Valid() && this.scanner == scanner && this.driver == driver
      ensures Pending() == old(scanner.Remaining())
    {
      this.scanner := scanner;
      this.driver := driver;
      var first := scanner.Yylex();
      this.look := first;
    }

    method Advance()
      requires Valid() && look.Some?
      modifies this, scanner
      ensures Valid() && Pending() == old(Pending())[1..]
    {
      look := scanner.Yylex();
    }

    /** Consumes the lookahead if it is `t`. */
    method Accept(t: Token) returns (ok: bool)
      requires Valid()
      modifies this, scanner
      ensures Valid()
      ensures ok <==> old(Pending()) != [] && old(Pending())[0] == t
      ensures Pending() == if ok then old(Pending())[1..] else old(Pending())
    {
      ok := look == Some(t);
      if ok {
        Advance();
      }
    }

    method AcceptIdent() returns (name: Option<string>)
      requires Valid()
      modifies this, scanner
      ensures Valid()
      ensures var p := old(Pending());
              if p != [] && p[0].IDENT? then name == Some(p[0].name) && Pending() == p[1..]
              else name == None && Pending() == p
    {
      name := None;
      if look.Some? && look.value.IDENT? {
        name := Some(look.value.name);
        Advance();
      }
    }

    method AcceptValue() returns (val: Option<Value>)
      requires Valid()
      modifies this, scanner
      ensures Valid()
      ensures var p := old(Pending());
              if p != [] && ParseValue(p[0]).Some? then val == ParseValue(p[0]) && Pending() == p[1..]
              else val == None && Pending() == p
    {
      val := None;
      if look.Some? {
        val := ParseValue(look.value);
        if val.Some? {
          Advance();
        }
      }
    }

    /** The rule `attr`. */
    method Attribute() returns (attr: Option<Attr>)
      requires Valid()
      modifies this, scanner
      ensures Valid()
      ensures attr == ParseAttr(old(Pending()))
      ensures attr.Some? ==> Pending() == old(Pending())[4..]
    {
      ghost var p := Pending();
      var key := AcceptIdent();
      if key.None? {
        return None;
      }
      var eq := Accept(EQUALS);
      if !eq {
        return None;
      }
      assert Pending() == p[2..];
      var val := AcceptValue();
      if val.None? {
        return None;
      }
      assert Pending() == p[3..];
      var comma := Accept(COMMA);
      if !comma {
        return None;
      }
      assert Pending() == p[4..];
      attr := Some(Attr(key.value, val.value));
    }

    /** The rule `attrlist`, up to the bracket that closes it; None on a syntax error. */
    method AttrList() returns (list: Option<Attributes>)
      requires Valid()
      modifies this, scanner
      ensures Valid()
      ensures var (attrs, rest) := ParseAttrs(old(Pending()));
              if rest != [] && rest[0] == CBRACKET then list == Some(AttrMap(attrs)) && Pending() == rest[1..]
              else list == None
    {
      var m: Attributes := map[];
      ghost var tokens, attrs := Pending(), [];
      assert attrs + ParseAttrs(tokens).0 == ParseAttrs(tokens).0;
      while look.Some? && look.value.IDENT?
        invariant Valid() && m == AttrMap(attrs)
        invariant ParseAttrs(tokens) == (attrs + ParseAttrs(Pending()).0, ParseAttrs(Pending()).1)
        decreases |Pending()|
      {
        ghost var before := Pending();
        var attr := Attribute();
        if attr.None? {
          return None;
        }
        AttrMapSnoc(attrs, attr.value);
        Regroup(attrs, attr.value, ParseAttrs(Pending()).0);
        m := Insert(m, attr.value.key, ValueText(attr.value.val));
        attrs := attrs + [attr.value];
      }
      assert attrs + [] == attrs;
      var ok := Accept(CBRACKET);
      list := if ok then Some(m) else None;
    }

    /** The rules `edgeattr` and `repeatrule` or `sequencerule`, and the blob behind them. */
    method EdgeAttributes() returns (r: Option<((nat, nat), string)>)
      requires Valid()
      modifies this, scanner
      ensures Valid()
      ensures var (opts, rest) := ParseOpts(old(Pending()));
              if rest != [] && rest[0].BLOB? then r == Some((EdgePair(opts), rest[0].blob)) && Pending() == rest[1..]
              else r == None
    {
      var pair: (nat, nat) := (0, 0);
      ghost var tokens, opts := Pending(), [];
      assert opts + ParseOpts(tokens).0 == ParseOpts(tokens).0;
      while look == Some(REPEAT) || look == Some(SEQUENCE)
        invariant Valid() && pair == EdgePair(opts)
        invariant ParseOpts(tokens) == (opts + ParseOpts(Pending()).0, ParseOpts(Pending()).1)
        decreases |Pending()|
      {
        ghost var before := Pending();
        var opt := EdgeOption();
        if opt.None? {
          return None;
        }
        EdgePairSnoc(opts, opt.value);
        Regroup(opts, opt.value, ParseOpts(Pending()).0);
        match opt.value {
          case Repeat(n) => pair := (n, if pair.1 != 0 then pair.1 else 0);
          case Sequence(n) => pair := (if pair.0 != 0 then pair.0 else 0, n);
        }
        opts := opts + [opt.value];
      }
      assert opts + [] == opts;
      if look.None? || !look.value.BLOB? {
        return None;
      }
      r := Some((pair, look.value.blob));
      Advance();
    }

    method EdgeOption() returns (opt: Option<EdgeOpt>)
      requires Valid() && (look == Some(REPEAT) || look == Some(SEQUENCE))
      modifies this, scanner
      ensures Valid()
      ensures var p := old(Pending());
              if |p| >= 3 && p[1] == EQUALS && p[2].NUMBER? then
                && opt == Some(if p[0] == REPEAT then Repeat(p[2].value) else Sequence(p[2].value))
                && Pending() == p[3..]
              else opt == None
    {
      ghost var p := Pending();
      var isRepeat := look == Some(REPEAT);
      Advance();
      var eq := Accept(EQUALS);
      if !eq || look.None? || !look.value.NUMBER? {
        return None;
      }
      assert Pending() == p[2..];
      opt := Some(if isRepeat then Repeat(look.value.value) else Sequence(look.value.value));
      Advance();
      assert Pending() == p[3..];
    }

    /** The rule `edgerule`. */
    method EdgeRule() returns (ok: bool)
      requires Valid()
      modifies this, scanner, driver
      ensures Valid() && driver.nerrors == old(driver.nerrors)
      ensures match ParseEdge(old(Pending()))
              case None => !ok && driver.view == old(driver.view)
              case Some((item, rest)) =>
                ok && Pending() == rest && driver.view == HandleEdges(old(driver.view), [Edge(item)])
    {
      hide ParseOpts, EdgePair, HandleEdges;
      ghost var p := Pending();
      var dash := Accept(DASH);
      if !dash {
        return false;
      }
      var arrow := Accept(ARROW);
      if !arrow {
        return false;
      }
      assert Pending() == p[2..];
      var dest := AcceptIdent();
      if dest.None? {
        return false;
      }
      assert Pending() == p[3..];
      var r := EdgeAttributes();
      if r.None? {
        return false;
      }
      driver.HandleEdge(EdgeDetails(dest.value, r.value.1, r.value.0.0, r.value.0.1));
      ok := true;
    }

    /** One more attribute or call of an `inputlist`; None on a syntax error. */
    method InputItem(m: Attributes) returns (r: Option<Attributes>, ghost item: Item)
      requires Valid() && look.Some? && (look.value.IDENT? || look.value == DASH)
      modifies this, scanner, driver
      ensures Valid() && driver.nerrors == old(driver.nerrors)
      ensures r.None? ==> ParseItems(old(Pending())).1 == old(Pending())
      ensures r.Some? ==> ParseItems(old(Pending())) == ([item] + ParseItems(Pending()).0, ParseItems(Pending()).1)
      ensures r.Some? ==> |Pending()| < |old(Pending())|
      ensures r.Some? ==>
                match item
                case AttrItem(a) => r.value == Insert(m, a.key, ValueText(a.val)) && driver.view == old(driver.view)
                case EdgeItem(_, _, _) => r.value == m && driver.view == HandleEdges(old(driver.view), [Edge(item)])
    {
      ghost var before := Pending();
      if look.value.IDENT? {
        var attr := Attribute();
        if attr.None? {
          return None, AttrItem(Attr("", Name("")));
        }
        r, item := Some(Insert(m, attr.value.key, ValueText(attr.value.val))), AttrItem(attr.value);
      } else {
        var ok := EdgeRule();
        if !ok {
          return None, AttrItem(Attr("", Name("")));
        }
        r, item := Some(m), ParseEdge(before).value.0;
      }
    }

    /** The rule `inputlist`, up to the bracket that closes it; calls go to the driver at once. */
    method InputList() returns (list: Option<Attributes>)
      requires Valid()
      modifies this, scanner, driver
      ensures Valid() && driver.nerrors == old(driver.nerrors)
      ensures var (items, rest) := ParseItems(old(Pending()));
              if rest != [] && rest[0] == CBRACKET then
                && list == Some(AttrMap(ItemAttrs(items))) && Pending() == rest[1..]
                && driver.view == HandleEdges(old(driver.view), ItemEdges(items))
              else list == None
    {
      var m: Attributes := map[];
      ghost var tokens, items := Pending(), [];
      assert items + ParseItems(tokens).0 == ParseItems(tokens).0;
      NoEdges(driver.view);
      while look.Some? && (look.value.IDENT? || look.value == DASH)
        invariant Valid() && driver.nerrors == old(driver.nerrors)
        invariant m == AttrMap(ItemAttrs(items))
        invariant driver.view == HandleEdges(old(driver.view), ItemEdges(items))
        invariant ParseItems(tokens) == (items + ParseItems(Pending()).0, ParseItems(Pending()).1)
        decreases |Pending()|
      {
        var r, item := InputItem(m);
        if r.None? {
          return None;
        }
        ItemDone(old(driver.view), items, item);
        Regroup(items, item, ParseItems(Pending()).0);
        m := r.value;
        items := items + [item];
      }
      assert items + [] == items;
      var ok := Accept(CBRACKET);
      list := if ok then Some(m) else None;
    }

    /** The rules `noderule` and `toprule`. */
    method RuleAndAction() returns (ok: bool)
      requires Valid()
      modifies this, scanner, driver
      ensures Valid() && driver.nerrors == old(driver.nerrors)
      ensures match ParseRule(old(Pending()))
              case None => !ok
              case Some((rule, rest)) => ok && Pending() == rest && driver.view == Apply(old(driver.view), rule)
    {
      if look.Some? && look.value.IDENT? {
        ok := NodeRule();
      } else {
        ok := TopRule();
      }
    }

    method NodeRule() returns (ok: bool)
      requires Valid() && look.Some? && look.value.IDENT?
      modifies this, scanner, driver
      ensures Valid() && driver.nerrors == old(driver.nerrors)
      ensures match ParseRule(old(Pending()))
              case None => !ok
              case Some((rule, rest)) => ok && Pending() == rest && driver.view == Apply(old(driver.view), rule)
    {
      ghost var p := Pending();
      ParseNodeRule(p);
      hide ParseRule, ParseAttrs, AttrMap, Actions.HandleNode;
      var name := AcceptIdent();
      var open := Accept(OBRACKET);
      if !open {
        return false;
      }
      assert Pending() == p[2..];
      var list := AttrList();
      ok := list.Some?;
      if ok {
        driver.HandleNode(name.value, list.value);
      }
    }

    method TopRule() returns (ok: bool)
      requires Valid() && (look.None? || !look.value.IDENT?)
      modifies this, scanner, driver
      ensures Valid() && driver.nerrors == old(driver.nerrors)
      ensures match ParseRule(old(Pending()))
              case None => !ok
              case Some((rule, rest)) => ok && Pending() == rest && driver.view == Apply(old(driver.view), rule)
    {
      var open := Accept(OBRACKET);
      if !open {
        return false;
      }
      var list := InputList();
      ok := list.Some?;
      if ok {
        driver.HandleTop(list.value);
      }
    }

    /** The start symbol `rulelist`: false, and an error counted, if the input is not in the language. */
    method Parse() returns (ok: bool)
      requires Valid()
      modifies this, scanner, driver
      ensures Valid()
      ensures if ok then driver.nerrors == old(driver.nerrors) else driver.nerrors > old(driver.nerrors)
      ensures match Grammar.Parse(old(Pending()))
              case None => !ok
              case Some(rules) => ok && driver.view == Replay(old(driver.view), rules)
    {
      ghost var tokens, rules := Pending(), [];
      if Grammar.Parse(tokens).Some? {
        assert rules + Grammar.Parse(tokens).value == Grammar.Parse(tokens).value;
      }
      while look.Some?
        invariant Valid() && driver.nerrors == old(driver.nerrors)
        invariant driver.view == Replay(old(driver.view), rules)
        invariant Grammar.Parse(tokens) == After(rules, Grammar.Parse(Pending()))
        decreases |Pending()|
      {
        ghost var rule := ParseRule(Pending());
        ghost var rest := if rule.Some? then Grammar.Parse(rule.value.1) else None;
        ok := RuleAndAction();
        if !ok {
          driver.nerrors := driver.nerrors + 1;
          return;
        }
        ReplayAppend(old(driver.view), rules, [rule.value.0]);
        assert [rule.value.0][1..] == [];
        if rest.Some? {
          Regroup(rules, rule.value.0, rest.value);
        }
        rules := rules + [rule.value.0];
      }
      assert rules + [] == rules;
      ok := true;
    }
  }

  lemma ParseNodeRule(ts: seq<Token>)
    requires ts != [] && ts[0].IDENT?
    ensures ParseRule(ts)
            == if |ts| < 2 || ts[1] != OBRACKET then None
               else
                 var (attrs, rest) := ParseAttrs(ts[2..]);
                 if rest == [] || rest[0] != CBRACKET then None
                 else Some((Rule.NodeRule(ts[0].name, attrs), rest[1..]))
  {
  }

  lemma EdgePairSnoc(opts: seq<EdgeOpt>, o: EdgeOpt)
    ensures var before := EdgePair(opts);
            EdgePair(opts + [o])
            == match o
               case Repeat(n) => (n, if before.1 != 0 then before.1 else 0)
               case Sequence(n) => (if before.0 != 0 then before.0 else 0, n)
  {
    assert (opts + [o])[..|opts|] == opts;
  }

  lemma {:induction false} ItemsSnoc(items: seq<Item>, item: Item)
    ensures ItemAttrs(items + [item]) == ItemAttrs(items) + (if item.AttrItem? then [item.attr] else [])
    ensures ItemEdges(items + [item]) == ItemEdges(items) + (if item.EdgeItem? then [Edge(item)] else [])
  {
    if items == [] {
      assert items + [item] == [item] && [item][1..] == [];
    } else {
      assert (items + [item])[1..] == items[1..] + [item];
      ItemsSnoc(items[1..], item);
    }
  }

  lemma ItemDone(st: State, items: seq<Item>, item: Item)
    ensures var m := AttrMap(ItemAttrs(items));
            AttrMap(ItemAttrs(items + [item]))
            == if item.AttrItem? then Insert(m, item.attr.key, ValueText(item.attr.val)) else m
    ensures HandleEdges(st, ItemEdges(items + [item]))
            == if item.AttrItem? then HandleEdges(st, ItemEdges(items))
               else HandleEdges(HandleEdges(st, ItemEdges(items)), [Edge(item)])
  {
    ItemsSnoc(items, item);
    if item.AttrItem? {
      AttrMapSnoc(ItemAttrs(items), item.attr);
      assert ItemEdges(items) + [] == ItemEdges(items);
    } else {
      HandleEdgesAppend(st, ItemEdges(items), [Edge(item)]);
      assert ItemAttrs(items) + [] == ItemAttrs(items);
    }
  }

  lemma NoEdges(st: State)
    ensures HandleEdges(st, []) == st
  {
    assert Names([]) == {};
    assert st.edges + [] == st.edges;
  }

  lemma HandleEdgesAppend(st: State, a: seq<EdgeDetails>, b: seq<EdgeDetails>)
    ensures HandleEdges(HandleEdges(st, a), b) == HandleEdges(st, a + b)
  {
    NamesAppend(a, b);
    assert st.edges + a + b == st.edges + (a + b);
  }

  lemma Regroup<X>(a: seq<X>, x: X, b: seq<X>)
    ensures a + ([x] + b) == a + [x] + b
  {
  }
}
