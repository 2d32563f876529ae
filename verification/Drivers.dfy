/** The driver object of src/fidi_driver.h and src/fidi_driver.cc. */
module Drivers {
  import opened Lexical
  import opened Ordered
  import opened Actions
  import opened Numbers
  import opened Sanity
  import opened Heap
  import opened Sequences

  class Driver {
    var topAttributes: Attributes
    var nodes: map<string, Attributes>
    var nodeGlob: string
    var destinations: set<string>
    var edgeAttributes: seq<EdgeDetails>
    var nerrors: nat
    ghost var view: State  // the same as a value, with the edges in the order of their arrival

    ghost predicate Valid()
      reads this
    {
      && topAttributes == view.top
      && nodes == view.nodes
      && nodeGlob == view.glob
      && destinations == view.destinations
      && multiset(edgeAttributes) == multiset(view.edges)
      && IsHeap(edgeAttributes)
    }

    constructor ()
      ensures Valid() && view == EMPTY && nerrors == 0
    {
      topAttributes, nodes, nodeGlob, destinations, edgeAttributes := map[], map[], "", {}, [];
      nerrors := 0;
      view := EMPTY;
    }

    method HandleTop(topList: Attributes)
      requires Valid()
      modifies `topAttributes, `view
      ensures Valid() && view == Actions.HandleTop(old(view), topList)
    {
      topAttributes := topList;
      view := Actions.HandleTop(view, topList);
    }

    method HandleNode(name: string, nodeList: Attributes)
      requires Valid()
      modifies `nodes, `nodeGlob, `view
      ensures Valid() && view == Actions.HandleNode(old(view), name, nodeList)
    {
      MergeNode(name, nodeList);
      var text := PrintNode(name, nodeList);
      nodeGlob := nodeGlob + text;
      view := Actions.HandleNode(view, name, nodeList);
    }

    method MergeNode(name: string, nodeList: Attributes)
      modifies `nodes
      ensures nodes == old(nodes)[name := UnquoteHost(
                if name in old(nodes) then LeftUnion(old(nodes)[name], nodeList) else nodeList)]
    {
      if name !in nodes {
        nodes := nodes[name := nodeList];
      } else {
        nodes := nodes[name := LeftUnion(nodes[name], nodeList)];
      }
      ghost var merged := nodes[name];
      if "hostname" in nodes[name] {
        var host := EraseQuotes(nodes[name]["hostname"]);
        nodes := nodes[name := nodes[name]["hostname" := host]];
        assert nodes[name] == UnquoteHost(merged);
      }
    }

    method HandleEdge(edge: EdgeDetails)
      requires Valid()
      modifies `destinations, `edgeAttributes, `view
      ensures Valid() && view == HandleEdges(old(view), [edge.(blob := PREFIX + edge.blob)])
    {
      var newEdge := edge;
      destinations := destinations + {newEdge.name};
      newEdge := newEdge.(blob := PREFIX + newEdge.blob);
      edgeAttributes := Push(edgeAttributes, newEdge);
      assert Names([newEdge]) == {newEdge.name} by {
        assert [newEdge][0].name in Names([newEdge]);
      }
      assert multiset(view.edges + [newEdge]) == multiset(view.edges) + multiset{newEdge};
      view := HandleEdges(view, [newEdge]);
    }

    /** Returns what `error_message` and the error count amount to, or that a conversion threw. */
    method SanityChecks() returns (outcome: Outcome)
      requires Valid()
      ensures outcome == Sanity.SanityChecks(nodes, destinations, topAttributes)
    {
      hide TopWarnings, NodesWarnings, DestinationWarnings, Convert;
      var warnings := CheckNodes();
      var more := CheckDestinations();
      warnings := warnings + more + TopWarnings(topAttributes);
      if "timeout_usec" in topAttributes {
        match Stol(topAttributes["timeout_usec"])
        case Converted(usec, _) =>
          if usec >= 1000000 {
            warnings := warnings + [UsecTooLarge];
          }
        case _ => return Threw;
      }
      outcome := Checked(warnings);
    }

    method CheckNodes() returns (warnings: seq<Warning>)
      ensures warnings == NodesWarnings(SortedKeys(nodes.Keys), nodes)
    {
      warnings := [];
      var ids := SortedKeys(nodes.Keys);
      for i := 0 to |ids|
        invariant NodesWarnings(ids, nodes) == warnings + NodesWarnings(ids[i..], nodes)
      {
        assert ids[i..][1..] == ids[i + 1..] && ids[i] in ids;
        Associate(warnings, NodeWarnings(ids[i], nodes[ids[i]]), NodesWarnings(ids[i + 1..], nodes));
        warnings := warnings + NodeWarnings(ids[i], nodes[ids[i]]);
      }
    }

    method CheckDestinations() returns (warnings: seq<Warning>)
      ensures warnings == DestinationWarnings(SortedKeys(destinations), nodes)
    {
      warnings := [];
      var ids := SortedKeys(destinations);
      for i := 0 to |ids|
        invariant DestinationWarnings(ids, nodes) == warnings + DestinationWarnings(ids[i..], nodes)
      {
        assert ids[i..][1..] == ids[i + 1..];
        ghost var more := if ids[i] in nodes then [] else [UndefinedNode(ids[i])];
        Associate(warnings, more, DestinationWarnings(ids[i + 1..], nodes));
        if ids[i] !in nodes {
          warnings := warnings + [UndefinedNode(ids[i])];
        } else {
          assert warnings + more == warnings;
        }
      }
    }
  }

  /** The text that `HandleNode` appends to `node_glob_`: the list as it was given, quotes and all. */
  method PrintNode(name: string, nodeList: Attributes) returns (text: string)
    ensures text == NodeText(name, nodeList)
  {
    SortedKeysIn(nodeList);
    var keys := SortedKeys(nodeList.Keys);
    text := name + " [\n";
    ghost var head := text;
    assert text == head + EntriesText(keys[..0], nodeList);
    hide EntriesText, SortedKeys;
    for i := 0 to |keys|
      invariant text == head + EntriesText(keys[..i], nodeList)
    {
      EntriesNext(keys, i, nodeList);
      text := text + ("  " + keys[i] + " = " + nodeList[keys[i]] + ",\n");
    }
    assert keys[..|keys|] == keys;
    text := text + "]\n";
  }

  lemma EntriesNext(keys: seq<string>, i: nat, m: Attributes)
    requires i < |keys| && forall j | j in keys :: j in m
    ensures EntriesText(keys[..i + 1], m)
            == EntriesText(keys[..i], m) + ("  " + keys[i] + " = " + m[keys[i]] + ",\n")
  {
    hide EntriesText;
    assert keys[..i + 1] == keys[..i] + [keys[i]];
    EntriesSnoc(keys[..i], keys[i], m);
  }

  /** The loop that erases every double quote from a hostname in place. */
  method EraseQuotes(s: string) returns (host: string)
    ensures host == Unquoted(s)
  {
    host := s;
    var found := 0;
    while true
      invariant 0 <= found <= |host|
      invariant '"' !in host[..found]
      invariant Unquoted(host) == Unquoted(s)
      decreases |host|
    {
      var next := IndexOf(host[found..], '"');
      if next.None? {
        assert host == host[..found] + host[found..];
        assert '"' !in host;
        return;
      }
      found := found + next.value;
      EraseOne(host, found);
      host := host[..found] + host[found + 1..];
    }
  }

  lemma {:induction false} EraseOne(s: string, i: nat)
    requires i < |s| && s[i] == '"'
    ensures Unquoted(s[..i] + s[i + 1..]) == Unquoted(s)
  {
    var t := s[..i] + s[i + 1..];
    if i == 0 {
      assert t == s[1..];
    } else {
      EraseOne(s[1..], i - 1);
      assert t[1..] == s[1..][..i - 1] + s[1..][i..];
    }
  }

  lemma {:induction false} EntriesSnoc(keys: seq<string>, k: string, m: Attributes)
    requires forall j | j in keys + [k] :: j in m
    ensures forall j | j in keys :: j in m
    ensures EntriesText(keys + [k], m) == EntriesText(keys, m) + ("  " + k + " = " + m[k] + ",\n")
  {
    assert forall j | j in keys :: j in keys + [k];
    assert k in keys + [k];
    if keys == [] {
      assert keys + [k] == [k] && [k][1..] == [];
      assert EntriesText([k], m) == "  " + k + " = " + m[k] + ",\n" + "";
    } else {
      var h := keys[0];
      Tail(keys, [k]);
      EntriesSnoc(keys[1..], k, m);
      Associate("  " + h + " = " + m[h] + ",\n", EntriesText(keys[1..], m), "  " + k + " = " + m[k] + ",\n");
    }
  }
}
