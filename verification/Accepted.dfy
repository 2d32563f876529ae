/**
 What the checks and the addresses mean for a text that was accepted: there every number is one that the
 grammar has printed (src/fidi_parser.yy:132-134), so everything can be said without a conversion.
 */
module Accepted {
  import opened Lexical
  import opened Numbers
  import opened Scanner
  import opened AttributeText
  import opened Grammar
  import opened Ordered
  import opened Actions
  import opened NodeGlob
  import opened Sanity

  // ---------- attributes of an accepted text ----------

  lemma {:induction false} TopIsGood(st: State, rules: seq<Rule>)
    requires GoodRules(rules, false) && GoodMap(st.top)
    ensures GoodMap(Replay(st, rules).top)
    decreases |rules|
  {
    if rules != [] {
      assert GoodRule(rules[0], false);
      if rules[0].TopRule? {
        GoodAttrsMap(ItemAttrs(rules[0].items), false);
      }
      TopIsGood(Apply(st, rules[0]), rules[1..]);
    }
  }

  lemma AttributesAreGood(text: string)
    requires Instance(text).Some?
    ensures GoodMap(Instance(text).value.top)
  {
    var rules := Parse(Scan(Initial, text)).value;
    AcceptedRulesAreGood(text, false);
    TopIsGood(EMPTY, rules);
  }

  /** Every attribute of a node but the hostname is as it was written. */
  predicate GoodNode(m: Attributes) {
    forall k | k in m && k != "hostname" :: GoodText(m[k])
  }

  lemma {:induction false} DefinitionsAreGood(rules: seq<Rule>, name: string)
    requires GoodRules(rules, false) && Definitions(rules, name).Some?
    ensures GoodMap(Definitions(rules, name).value)
  {
    var n := |rules| - 1;
    assert GoodRule(rules[n], false);
    if rules[n].NodeRule? {
      GoodAttrsMap(rules[n].attrs, false);
    }
    if Definitions(rules[..n], name).Some? {
      DefinitionsAreGood(rules[..n], name);
    }
  }

  lemma NodesAreGood(text: string, name: string)
    requires Instance(text).Some? && name in Instance(text).value.nodes
    ensures GoodNode(Instance(text).value.nodes[name])
  {
    var rules := Parse(Scan(Initial, text)).value;
    AcceptedRulesAreGood(text, false);
    NodesAreMerged(rules, name);
    DefinitionsAreGood(rules, name);
  }

  // ---------- numbers ----------

  /** `s` is the decimal numeral of a number from `lo` up to but not including `hi`. */
  ghost predicate IntText(s: string, lo: int, hi: int) {
    exists n: nat :: lo <= n < hi && s == Decimal(n)
  }

  lemma NoNumber(s: string, lo: int, hi: int)
    requires s != "" && !IsSpace(s[0]) && !IsDigit(s[0]) && s[0] != '-' && s[0] != '+'
    ensures Convert(s, lo, hi) == NoDigits
  {
    assert s[0..] == s;
    assert Span(IsSpace, s) == 0 && Span(IsDigit, s) == 0;
  }

  /** A value that is no number has no digits to convert. */
  lemma TextConverts(s: string)
    requires GoodText(s)
    ensures if IsNumeral(s) then s == Decimal(NumeralValue(s)) else Stoi(s) == NoDigits && Stol(s) == NoDigits
  {
    if !IsNumeral(s) {
      NoNumber(s, -INT_MAX - 1, INT_MAX);
      NoNumber(s, -0x8000_0000_0000_0000, 0x7fff_ffff_ffff_ffff);
    }
  }

  lemma IntTextValue(s: string, lo: int, hi: int)
    requires GoodText(s)
    ensures IntText(s, lo, hi) <==> IsNumeral(s) && lo <= NumeralValue(s) < hi
  {
    TextConverts(s);
    if n: nat :| lo <= n < hi && s == Decimal(n) {
      DecimalValue(n);
    }
  }

  /** The conversion to an int, in a given range. */
  lemma IntTextIsInt(s: string, lo: int, hi: int)
    requires GoodText(s) && 0 <= lo && hi <= 0x8000_0000
    ensures IntText(s, lo, hi) <==> IsInt(s) && lo <= Stoi(s).n < hi
  {
    IntTextValue(s, lo, hi);
    TextConverts(s);
    if IsNumeral(s) {
      DigitsConvert(s, -INT_MAX - 1, INT_MAX);
    }
    hide Convert, NumeralValue, GoodText;
  }

  lemma IntTextIsLong(s: string)
    requires GoodText(s)
    ensures IntText(s, 0, 0x8000_0000_0000_0000) <==> Stol(s).Converted?
  {
    IntTextValue(s, 0, 0x8000_0000_0000_0000);
    TextConverts(s);
    if IsNumeral(s) {
      DigitsConvert(s, -0x8000_0000_0000_0000, 0x7fff_ffff_ffff_ffff);
    }
    hide Convert, NumeralValue, GoodText;
  }

  /** A number is reported if it is no numeral or too large for an int; garbage behind it never is. */
  lemma NumberWarnings(s: string, field: Field)
    requires GoodText(s)
    ensures CheckNum(s, field).1
            == if IntText(s, 0, 0x8000_0000) then []
               else if exists n: nat :: s == Decimal(n) then [OutOfRange(field)]
               else [NotInteger(field)]
  {
    TextConverts(s);
    IntTextValue(s, 0, 0x8000_0000);
    if IsNumeral(s) {
      DigitsConvert(s, -INT_MAX - 1, INT_MAX);
      assert s == Decimal(NumeralValue(s));
    }
    assert (exists n: nat :: s == Decimal(n)) ==> IsNumeral(s);
    hide Convert, NumeralValue, GoodText;
  }

  // ---------- when the checks are silent ----------

  ghost predicate Complete(nodes: map<string, Attributes>) {
    forall id | id in nodes ::
      && ("url" in nodes[id] || ("hostname" in nodes[id] && "port" in nodes[id]))
      && ("port" in nodes[id] ==> IntText(nodes[id]["port"], 0, 0x8000_0000))
  }

  ghost predicate IntTextIfGiven(top: Attributes, key: string, hi: int) {
    key in top ==> IntText(top[key], 0, hi)
  }

  ghost predicate Numbered(top: Attributes) {
    && "response" in top && IntText(top["response"], 1, 600)
    && IntTextIfGiven(top, "predelay", 0x8000_0000) && IntTextIfGiven(top, "postdelay", 0x8000_0000)
    && IntTextIfGiven(top, "timeout_sec", 0x8000_0000) && IntTextIfGiven(top, "timeout_usec", 1000000)
  }

  lemma NodeIsComplete(text: string, id: string)
    requires Instance(text).Some? && id in Instance(text).value.nodes
    ensures var m := Instance(text).value.nodes[id];
            SoundNode(m) <==>
              && ("url" in m || ("hostname" in m && "port" in m))
              && ("port" in m ==> IntText(m["port"], 0, 0x8000_0000))
  {
    NodesAreGood(text, id);
    HostnamesHaveNoQuotes(Parse(Scan(Initial, text)).value, id);
    hide Scan, Parse, Replay, GoodNode, SoundNode, IntText;
    GoodNodeIsComplete(Instance(text).value.nodes[id]);
  }

  lemma GoodNodeIsComplete(m: Attributes)
    requires GoodNode(m) && ("hostname" in m ==> '"' !in m["hostname"])
    ensures SoundNode(m) <==>
              && ("url" in m || ("hostname" in m && "port" in m))
              && ("port" in m ==> IntText(m["port"], 0, 0x8000_0000))
  {
    hide IsInt, Stoi, IntText, GoodText;
    if "port" in m {
      assert GoodText(m["port"]);
      IntTextIsInt(m["port"], 0, 0x8000_0000);
      if IsInt(m["port"]) {
        IntBounds(m["port"]);
      }
    }
  }

  lemma IntBounds(s: string)
    requires GoodText(s) && IsInt(s)
    ensures 0 <= Stoi(s).n < 0x8000_0000
  {
    TextConverts(s);
    DigitsConvert(s, -INT_MAX - 1, INT_MAX);
  }

  lemma GivenInt(top: Attributes, key: string)
    requires GoodMap(top)
    ensures IntIfGiven(top, key) <==> IntTextIfGiven(top, key, 0x8000_0000)
  {
    if key in top {
      IntTextIsInt(top[key], 0, 0x8000_0000);
      if IsInt(top[key]) {
        IntBounds(top[key]);
      }
    }
  }

  lemma TopIsNumbered(top: Attributes)
    requires GoodMap(top)
    ensures SoundTop(top) <==> Numbered(top)
  {
    GivenInt(top, "predelay");
    GivenInt(top, "postdelay");
    GivenInt(top, "timeout_sec");
    if "response" in top {
      IntTextIsInt(top["response"], 1, 600);
    }
    if "timeout_usec" in top {
      IntTextIsInt(top["timeout_usec"], 0, 1000000);
      if IsInt(top["timeout_usec"]) {
        IntBounds(top["timeout_usec"]);
      }
    }
    hide IntIfGiven, IntTextIfGiven, IsInt, IntText, GoodMap, Stoi;
    GivenUsec(top);
  }

  lemma GivenUsec(top: Attributes)
    ensures IntTextIfGiven(top, "timeout_usec", 1000000) <==>
            ("timeout_usec" in top ==> IntText(top["timeout_usec"], 0, 1000000))
    ensures IntIfGiven(top, "timeout_usec") <==> ("timeout_usec" in top ==> IsInt(top["timeout_usec"]))
  {
    hide IsInt, IntText;
  }

  /**
   The gate in terms of what was written: the checks are silent on an accepted text exactly if every node
   has an address and an int for its port, all destinations are defined, the response is a numeral from 1
   to 599, the delays and the whole seconds fit an int, and the microseconds are below a million.
   */
  lemma SilentOnAccepted(text: string)
    requires Instance(text).Some?
    ensures var st := Instance(text).value;
            SanityChecks(st.nodes, st.destinations, st.top) == Checked([]) <==>
              && Complete(st.nodes) && (forall d | d in st.destinations :: d in st.nodes) && Numbered(st.top)
  {
    var st := Instance(text).value;
    SilentIffSound(st.nodes, st.destinations, st.top);
    AttributesAreGood(text);
    TopIsNumbered(st.top);
    forall id | id in st.nodes
      ensures SoundNode(st.nodes[id]) <==>
                && ("url" in st.nodes[id] || ("hostname" in st.nodes[id] && "port" in st.nodes[id]))
                && ("port" in st.nodes[id] ==> IntText(st.nodes[id]["port"], 0, 0x8000_0000))
    {
      NodeIsComplete(text, id);
    }
    hide Instance, SanityChecks, SoundNode, IntText, Numbered, SoundTop;
  }

  /** In particular a response that gets through is a status code. */
  lemma ResponseIsStatus(text: string, n: nat)
    requires Instance(text).Some?
    requires var st := Instance(text).value;
             SanityChecks(st.nodes, st.destinations, st.top) == Checked([])
             && "response" in st.top && st.top["response"] == Decimal(n)
    ensures 0 < n < 600
  {
    SilentOnAccepted(text);
    hide Instance, SanityChecks;
    var k: nat :| 1 <= k < 600 && Instance(text).value.top["response"] == Decimal(k);
    DecimalInjective(k, n);
  }

  /** And they throw exactly if microseconds are given that are no numeral within a long. */
  lemma ThrowsOnAccepted(text: string)
    requires Instance(text).Some?
    ensures var st := Instance(text).value;
            SanityChecks(st.nodes, st.destinations, st.top).Threw? <==>
              "timeout_usec" in st.top && !IntText(st.top["timeout_usec"], 0, 0x8000_0000_0000_0000)
  {
    var st := Instance(text).value;
    AttributesAreGood(text);
    if "timeout_usec" in st.top {
      IntTextIsLong(st.top["timeout_usec"]);
    }
    hide Instance, IntText, Stol, GoodMap, TopWarnings, NodesWarnings, DestinationWarnings;
  }

  // ---------- the address of a node ----------

  lemma QuoteMeansString(s: string)
    requires GoodText(s)
    ensures '"' in s <==> StartsQuoted(s)
  {
    if !StartsQuoted(s) {
      assert forall i | 0 <= i < |s| :: IsWordChar(s[i]);
    }
  }

  lemma IntHasNoQuote(s: string)
    requires GoodText(s) && IsInt(s)
    ensures '"' !in s
  {
    QuoteMeansString(s);
  }

  /**
   The address that a call goes to has a double quote in it exactly if the `url` of its node, or else
   the `path`, was written as a string: unlike a hostname these keep their quotes.
   */
  lemma UrlKeepsQuotes(text: string, name: string)
    requires Instance(text).Some?
    requires var st := Instance(text).value;
             SanityChecks(st.nodes, st.destinations, st.top) == Checked([]) && name in st.nodes
    ensures var nodes := Instance(text).value.nodes;
            && GetUrl(nodes, name).Some?
            && ('"' in GetUrl(nodes, name).value
                <==> if "url" in nodes[name] then StartsQuoted(nodes[name]["url"])
                     else "path" in nodes[name] && StartsQuoted(nodes[name]["path"]))
  {
    var st := Instance(text).value;
    SilentIffSound(st.nodes, st.destinations, st.top);
    NodesAreGood(text, name);
    hide Instance, SanityChecks;
    assert SoundNode(st.nodes[name]);
    QuotesInUrl(st.nodes, name);
  }

  lemma QuotesInUrl(nodes: map<string, Attributes>, name: string)
    requires name in nodes && SoundNode(nodes[name]) && GoodNode(nodes[name])
    ensures GetUrl(nodes, name).Some?
    ensures '"' in GetUrl(nodes, name).value
            <==> if "url" in nodes[name] then StartsQuoted(nodes[name]["url"])
                 else "path" in nodes[name] && StartsQuoted(nodes[name]["path"])
  {
    var m := nodes[name];
    if "url" in m {
      QuoteMeansString(m["url"]);
    } else {
      IntHasNoQuote(m["port"]);
      if "path" in m {
        QuoteMeansString(m["path"]);
      }
      var path := if "path" in m then m["path"] else "/fidi";
      QuotesInParts("http://" + m["hostname"] + ":" + m["port"], path);
      QuotesInParts("http://" + m["hostname"] + ":", m["port"]);
      QuotesInParts("http://" + m["hostname"], ":");
      QuotesInParts("http://", m["hostname"]);
    }
  }

  lemma QuotesInParts(a: string, b: string)
    ensures '"' in a + b <==> '"' in a || '"' in b
  {
  }

  datatype Address = Address(host: string, port: string, path: string)

  predicate HostChar(c: char) {
    c != ':' && c != '/'
  }

  /** How a receiver takes a URL apart: scheme, host, port and the rest. */
  function ReadUrl(url: string): Option<Address> {
    if |url| < 7 || url[..7] != "http://" then None
    else
      var rest := url[7..];
      var h := Span(HostChar, rest);
      if h == |rest| || rest[h] != ':' then None
      else
        var tail := rest[h + 1..];
        var k := Span(IsDigit, tail);
        Some(Address(rest[..h], tail[..k], tail[k..]))
  }

  lemma ReadParts(host: string, port: string, path: string)
    requires IsNumeral(port) && path != ""
    ensures ReadUrl("http://" + host + ":" + port + path) == Some(Address(host, port, path))
            <==> (forall i | 0 <= i < |host| :: HostChar(host[i])) && !IsDigit(path[0])
  {
    var url := "http://" + host + ":" + port + path;
    var rest := host + (":" + (port + path));
    assert url[..7] == "http://" && url[7..] == rest;
    HostSpan(host, ":" + (port + path));
    if forall i | 0 <= i < |host| :: HostChar(host[i]) {
      assert rest[..|host|] == host && rest[|host|] == ':' && rest[|host| + 1..] == port + path;
      PortSpan(port, path);
    }
  }

  /** The host is read in full exactly if no character of it ends it. */
  lemma HostSpan(host: string, rest: string)
    requires rest != "" && rest[0] == ':'
    ensures (forall i | 0 <= i < |host| :: HostChar(host[i])) ==> Span(HostChar, host + rest) == |host|
    ensures !(forall i | 0 <= i < |host| :: HostChar(host[i])) ==> Span(HostChar, host + rest) < |host|
  {
    var s := host + rest;
    if forall i | 0 <= i < |host| :: HostChar(host[i]) {
      SpanOfPrefix(HostChar, host, rest);
    } else {
      var i :| 0 <= i < |host| && !HostChar(host[i]);
      assert s[i] == host[i];
    }
  }

  lemma PortSpan(port: string, path: string)
    requires IsNumeral(port) && path != ""
    ensures var tail := port + path;
            var k := Span(IsDigit, tail);
            tail[..k] == port && tail[k..] == path <==> !IsDigit(path[0])
  {
    var tail := port + path;
    if IsDigit(path[0]) {
      assert forall i | 0 <= i <= |port| :: IsDigit(tail[i]);
      assert Span(IsDigit, tail) > |port|;
    } else {
      SpanOfPrefix(IsDigit, port, path);
      assert tail[..|port|] == port && tail[|port|..] == path;
    }
  }

  /**
   Where a call goes.  With a `url` the address is that text.  Without one, a receiver of the URL reads
   the node's hostname, port, and path or `/fidi`, exactly if the hostname has neither colon nor slash and
   the path does not begin with a digit.
   */
  lemma UrlIsRead(text: string, name: string)
    requires Instance(text).Some?
    requires var st := Instance(text).value;
             SanityChecks(st.nodes, st.destinations, st.top) == Checked([]) && name in st.nodes
    ensures var m := Instance(text).value.nodes[name];
            var url := GetUrl(Instance(text).value.nodes, name);
            if "url" in m then url == Some(m["url"])
            else
              && "hostname" in m && "port" in m && url.Some?
              && (var path := if "path" in m then m["path"] else "/fidi";
                  ReadUrl(url.value) == Some(Address(m["hostname"], m["port"], path))
                  <==> ':' !in m["hostname"] && '/' !in m["hostname"] && path != "" && !IsDigit(path[0]))
  {
    var st := Instance(text).value;
    SilentIffSound(st.nodes, st.destinations, st.top);
    NodesAreGood(text, name);
    hide Instance, SanityChecks;
    assert SoundNode(st.nodes[name]);
    PartsAreRead(st.nodes, name);
  }

  lemma PartsAreRead(nodes: map<string, Attributes>, name: string)
    requires name in nodes && SoundNode(nodes[name]) && GoodNode(nodes[name])
    ensures var m := nodes[name];
            var url := GetUrl(nodes, name);
            if "url" in m then url == Some(m["url"])
            else
              && "hostname" in m && "port" in m && url.Some?
              && (var path := if "path" in m then m["path"] else "/fidi";
                  ReadUrl(url.value) == Some(Address(m["hostname"], m["port"], path))
                  <==> ':' !in m["hostname"] && '/' !in m["hostname"] && path != "" && !IsDigit(path[0]))
  {
    var m := nodes[name];
    if "url" !in m {
      var path := if "path" in m then m["path"] else "/fidi";
      TextConverts(m["port"]);
      assert "path" in m ==> GoodText(m["path"]);
      assert path != "";
      hide Convert, GoodText;
      ReadParts(m["hostname"], m["port"], path);
    }
  }
}
