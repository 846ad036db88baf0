/**
  Whole sing-box configurations (internal/generator/singbox.go, GenerateSingbox): node outbounds, group
  objects and the built-in outbounds, and what the reader makes of all of them.
 */
module SingboxConfigs {
  import opened Wrappers
  import opened Text
  import opened Values
  import opened UniqueNames
  import opened Rules
  import opened SingboxRouting
  import opened Groups
  import opened JsonTrees
  import opened SingboxOutbounds
  import opened SingboxDocuments

  // ---------- printing ----------

  /** The JSON object of a group. */
  function GroupObject(g: GroupOutbound): Fields
  {
    match g
    case Selector(tag, members) => map["type" := Str("selector"), "tag" := Str(tag), "outbounds" := Strs(members)]
    case UrlTest(tag, members, url, interval, tolerance) =>
      var ob := map["type" := Str("urltest"), "tag" := Str(tag), "outbounds" := Strs(members), "url" := Str(url),
                    "interval" := Str(interval)];
      if tolerance.Some? then ob["tolerance" := Int(tolerance.value)] else ob
  }

  function GroupObjects(groups: seq<GroupOutbound>): (r: seq<Fields>)
    ensures |r| == |groups|
  {
    seq(|groups|, i requires 0 <= i < |groups| => GroupObject(groups[i]))
  }

  function BuiltIn(typ: string, tag: string): Fields { map["type" := Str(typ), "tag" := Str(tag)] }

  /** The objects for the tags in TAIL. */
  function TailObjects(): (r: seq<Fields>)
    ensures |r| == |TAIL|
  {
    [BuiltIn("direct", "direct"), BuiltIn("block", "block"), BuiltIn("dns", "dns-out")]
  }

  datatype SingboxConfig = SingboxConfig(outbounds: seq<Fields>, document: Document)

  function ConfigOf(nodes: seq<Node>, defs: seq<Def>, compile: Compile, rules: seq<Rule>): SingboxConfig
  {
    var doc := DocumentOf(Shown(nodes), NamesOf(nodes), defs, compile, rules);
    SingboxConfig(Outbounds(nodes) + (GroupObjects(doc.groups) + TailObjects()), doc)
  }

  /** GenerateSingbox after the node pipeline; with listOnly the node outbounds are all there is. */
  method GenerateSingbox(nodes: seq<Proxy>, listOnly: bool, defs: seq<Def>, compile: Compile, rules: seq<Rule>,
                         unread: seq<string>)
    returns (outbounds: seq<Fields>, doc: Option<Document>, skippedNodes: seq<string>, empty: seq<string>,
             skippedRules: seq<string>)
    ensures listOnly ==> outbounds == Outbounds(Views(nodes)) && doc == None
    ensures !listOnly ==> doc.Some?
    ensures !listOnly ==> SingboxConfig(outbounds, doc.value) == ConfigOf(Views(nodes), defs, compile, rules)
    ensures skippedNodes == SkippedNodes(Views(nodes))
    ensures empty == if listOnly then [] else EmptyOf(defs, compile, NamesOf(Views(nodes)), Shown(Views(nodes)))
    ensures skippedRules == if listOnly then [] else unread + SkipsOf(rules)
  {
    hide Outbounds, Shown, SkippedNodes, DocumentOf, EmptyOf, SkipsOf, GroupObject, TailObjects;
    var shown;
    outbounds, shown, skippedNodes := GenerateOutbounds(nodes);
    doc, empty, skippedRules := None, [], [];
    if listOnly {
      return;
    }
    var names := seq(|nodes|, i requires 0 <= i < |nodes| reads nodes => nodes[i].Name);
    assert names == NamesOf(Views(nodes));
    var d;
    d, empty, skippedRules := GenerateDocument(shown, names, defs, compile, rules, unread);
    for i := 0 to |d.groups|
      invariant outbounds == Outbounds(Views(nodes)) + GroupObjects(d.groups[..i])
    {
      assert GroupObjects(d.groups[..i + 1]) == GroupObjects(d.groups[..i]) + [GroupObject(d.groups[i])];
      outbounds := outbounds + [GroupObject(d.groups[i])];
    }
    assert d.groups[..|d.groups|] == d.groups;
    outbounds := outbounds + TailObjects();
    doc := Some(d);
  }

  // ---------- reading ----------

  predicate IsRouting(ob: Fields) { ToLower(JText(ob, "type")) in NON_PROXY }

  lemma {:induction false} ReadConcat(a: seq<Fields>, b: seq<Fields>)
    ensures NodesIn(a + b) == NodesIn(a) + NodesIn(b) && SkippedIn(a + b) == SkippedIn(a) + SkippedIn(b)
  {
    hide OutboundRead, JText, ToLower;
    if b == [] {
      assert a + b == a;
    } else {
      var n := |b| - 1;
      ReadConcat(a, b[..n]);
      assert (a + b)[..|a + b| - 1] == a + b[..n];
    }
  }

  lemma {:induction false} RoutingIsPassedOver(obs: seq<Fields>)
    requires forall i :: 0 <= i < |obs| ==> IsRouting(obs[i])
    ensures NodesIn(obs) == [] && SkippedIn(obs) == 0
  {
    hide OutboundRead, JText, ToLower;
    if obs != [] { RoutingIsPassedOver(obs[..|obs| - 1]); }
  }

  lemma RoutingTypeIsPlain(typ: string)
    requires typ in NON_PROXY
    ensures ToLower(TrimSpace(typ)) == typ
  {
    GraphIsTrimmed(typ);
    hide TrimSpace;
    assert forall i :: 0 <= i < |typ| ==> LowerChar(typ[i]) == typ[i];
  }

  lemma TypeIsRouting(m: Fields, typ: string)
    requires At(m, "type") == Some(Str(typ)) && typ in NON_PROXY
    ensures IsRouting(DecodedFields(m))
  {
    hide DecodedFields, JText, TrimSpace, ToLower;
    JReads(m, "type");
    RoutingTypeIsPlain(typ);
  }

  lemma GroupIsRouting(g: GroupOutbound)
    ensures IsRouting(DecodedFields(GroupObject(g)))
  {
    hide IsRouting, DecodedFields;
    TypeIsRouting(GroupObject(g), if g.Selector? then "selector" else "urltest");
  }

  lemma TailIsRouting(i: nat)
    requires i < 3
    ensures IsRouting(DecodedFields(TailObjects()[i]))
  {
    hide IsRouting, DecodedFields;
    TypeIsRouting(TailObjects()[i], ["direct", "block", "dns"][i]);
  }

  /** The reader passes over group objects and built-in outbounds: a configuration reads as its node outbounds alone. */
  lemma ConfigReadsAsItsNodes(nodes: seq<Node>, defs: seq<Def>, compile: Compile, rules: seq<Rule>)
    ensures var obs, own := DecodedAll(ConfigOf(nodes, defs, compile, rules).outbounds), DecodedAll(Outbounds(nodes));
            NodesIn(obs) == NodesIn(own) && SkippedIn(obs) == SkippedIn(own)
  {
    hide IsRouting, DecodedFields, GroupObject, TailObjects, NodesIn, SkippedIn, Outbounds, DocumentOf, Shown;
    var groups := ConfigOf(nodes, defs, compile, rules).document.groups;
    var own, rest := Outbounds(nodes), GroupObjects(groups) + TailObjects();
    assert DecodedAll(own + rest) == DecodedAll(own) + DecodedAll(rest);
    ReadConcat(DecodedAll(own), DecodedAll(rest));
    forall i | 0 <= i < |rest|
      ensures IsRouting(DecodedAll(rest)[i])
    {
      if i < |groups| { GroupIsRouting(groups[i]); } else { TailIsRouting(i - |groups|); }
    }
    RoutingIsPassedOver(DecodedAll(rest));
  }

  // ---------- main results ----------

  /** The node read for n has its name and type and says all that the reader keeps of it. */
  predicate ReadsAs(p: Node, n: Node)
  {
    var o := OutboundOf(n);
    o.Some? && p.name == n.name && p.typ == TypeOf(o.value.kind) && OutboundOf(p) == Some(Kept(o.value))
  }

  predicate AllReadAs(read: seq<Node>, nodes: seq<Node>)
  {
    |read| == |nodes| && forall i :: 0 <= i < |nodes| ==> ReadsAs(read[i], nodes[i])
  }

  lemma NodeIsRead(n: Node)
    requires NodeFits(n)
    ensures Rendered(n).Some?
    ensures var d := DecodedFields(Rendered(n).value);
            !IsRouting(d) && OutboundRead(d).Some? && ReadsAs(OutboundRead(d).value, n)
  {
    hide OutboundOf, OutboundRead, Fits, Json, DecodedFields, Kept, TypeOf, JText, ToLower;
    OutboundBack(OutboundOf(n).value);
    NamesMatch(n);
    ProxyType(n);
  }

  lemma {:induction false} NodesAreRead(nodes: seq<Node>)
    requires forall i :: 0 <= i < |nodes| ==> NodeFits(nodes[i])
    ensures var obs := DecodedAll(Outbounds(nodes)); SkippedIn(obs) == 0 && AllReadAs(NodesIn(obs), nodes)
  {
    hide NodeFits, Rendered, OutboundRead, DecodedFields, JText, ToLower, ReadsAs;
    if nodes == [] {
      assert DecodedAll(Outbounds(nodes)) == [];
    } else {
      var n := |nodes| - 1;
      NodesAreRead(nodes[..n]);
      NodeIsRead(nodes[n]);
      var front, last := DecodedAll(Outbounds(nodes[..n])), DecodedFields(Rendered(nodes[n]).value);
      assert DecodedAll(Outbounds(nodes)) == front + [last];
      ReadSnoc(front, last);
      hide NodesIn, SkippedIn, Outbounds, DecodedAll;
    }
  }

  /**
    A configuration printed for fitting nodes, with any groups and rules, is read as exactly those nodes in
    order, each with all that the reader keeps of it; nothing is skipped.
   */
  lemma ConfigKeepsNodes(nodes: seq<Node>, defs: seq<Def>, compile: Compile, rules: seq<Rule>)
    requires forall i :: 0 <= i < |nodes| ==> NodeFits(nodes[i])
    ensures var obs := DecodedAll(ConfigOf(nodes, defs, compile, rules).outbounds);
            SkippedIn(obs) == 0 && AllReadAs(NodesIn(obs), nodes)
  {
    hide *;
    ConfigReadsAsItsNodes(nodes, defs, compile, rules);
    NodesAreRead(nodes);
  }

  /** When every node has an outbound, all names are shown. */
  lemma {:induction false} AllAreShown(nodes: seq<Node>)
    ensures |Outbounds(nodes)| <= |nodes| && (|Outbounds(nodes)| == |nodes| ==> Shown(nodes) == NamesOf(nodes))
  {
    hide Rendered;
    if nodes != [] {
      var n := |nodes| - 1;
      AllAreShown(nodes[..n]);
      assert NamesOf(nodes) == NamesOf(nodes[..n]) + [nodes[n].name];
    }
  }

  lemma SameFront<T>(a: seq<T>, b: seq<T>, rest: seq<T>)
    requires |a| == |b|
    ensures a + rest == b + rest <==> a == b
  {
    assert (a + rest)[..|a|] == a && (b + rest)[..|b|] == b;
  }

  /**
    Generating a configuration, reading it and generating again with the same groups and rules gives the
    same configuration, outbounds, groups and routes, exactly when every node is one that comes back whole.
   */
  lemma ConfigIsFixed(nodes: seq<Node>, defs: seq<Def>, compile: Compile, rules: seq<Rule>)
    requires forall i :: 0 <= i < |nodes| ==> NodeFits(nodes[i])
    ensures var config := ConfigOf(nodes, defs, compile, rules);
            var read := NodesIn(DecodedAll(config.outbounds));
            ConfigOf(read, defs, compile, rules) == config <==>
            forall i :: 0 <= i < |nodes| ==> IsReproduced(nodes[i])
  {
    hide NodesIn, SkippedIn, Outbounds, DecodedAll, Shown, NodeFits, IsReproduced, DocumentOf, GroupObjects,
        TailObjects;
    ConfigReadsAsItsNodes(nodes, defs, compile, rules);
    DocumentIsFixed(nodes);
    var read := NodesIn(DecodedAll(Outbounds(nodes)));
    AllAreShown(nodes);
    AllAreShown(read);
    assert NamesOf(read) == NamesOf(nodes);
    var doc := ConfigOf(nodes, defs, compile, rules).document;
    SameFront(Outbounds(read), Outbounds(nodes), GroupObjects(doc.groups) + TailObjects());
  }

  // ---------- the tags of the objects ----------

  lemma {:induction false} NodeTags(nodes: seq<Node>, k: nat)
    requires k < |Outbounds(nodes)|
    ensures |Outbounds(nodes)| == |Shown(nodes)| && At(Outbounds(nodes)[k], "tag") == Some(Str(Shown(nodes)[k]))
  {
    hide Rendered, At;
    var n := |nodes| - 1;
    if k < |Outbounds(nodes[..n])| { NodeTags(nodes[..n], k); }
    ShownSize(nodes[..n]);
    if Rendered(nodes[n]).Some? { RenderedTag(nodes[n]); }
  }

  lemma {:induction false} ShownSize(nodes: seq<Node>)
    ensures |Outbounds(nodes)| == |Shown(nodes)|
  {
    hide Rendered;
    if nodes != [] { ShownSize(nodes[..|nodes| - 1]); }
  }

  lemma RenderedTag(n: Node)
    requires Rendered(n).Some?
    ensures At(Rendered(n).value, "tag") == Some(Str(n.name))
  {
    hide OutboundOf, Json, At;
    NamesMatch(n);
    CommonInJson(OutboundOf(n).value);
  }

  lemma GroupTag(g: GroupOutbound)
    ensures At(GroupObject(g), "tag") == Some(Str(g.tag))
  {
  }

  lemma TailTag(i: nat)
    requires i < 3
    ensures At(TailObjects()[i], "tag") == Some(Str(TAIL[i]))
  {
  }

  lemma TagCount(nodes: seq<Node>, defs: seq<Def>, compile: Compile, rules: seq<Rule>)
    ensures var config := ConfigOf(nodes, defs, compile, rules); |config.outbounds| == |config.document.tags|
  {
    hide GroupObject, GroupTree, Outbounds, Shown, RoutesOf, FinalOf, TagSets, GroupsOf;
    ShownSize(nodes);
    NamesOfGroups(defs, compile, NamesOf(nodes), Shown(nodes));
    var groups := GroupsOf(defs, compile, NamesOf(nodes), Shown(nodes));
    assert |groups| == |GroupNames(groups)| == |defs|;
  }

  /** The objects of a configuration carry the tags that its references are checked against, one each, in order. */
  lemma ConfigTags(nodes: seq<Node>, defs: seq<Def>, compile: Compile, rules: seq<Rule>, k: nat)
    requires k < |ConfigOf(nodes, defs, compile, rules).outbounds|
    ensures var config := ConfigOf(nodes, defs, compile, rules);
            && |config.outbounds| == |config.document.tags|
            && At(config.outbounds[k], "tag") == Some(Str(config.document.tags[k]))
  {
    hide At, GroupObject, GroupTree, Outbounds, Shown, RoutesOf, FinalOf, TagSets, GroupsOf;
    var doc := ConfigOf(nodes, defs, compile, rules).document;
    var own := |Outbounds(nodes)|;
    ShownSize(nodes);
    var groups := GroupsOf(defs, compile, NamesOf(nodes), Shown(nodes));
    NamesOfGroups(defs, compile, NamesOf(nodes), Shown(nodes));
    assert |groups| == |GroupNames(groups)| == |defs|;
    if k < own {
      NodeTags(nodes, k);
    } else if k < own + |defs| {
      GroupTag(doc.groups[k - own]);
      TreeTag(groups[k - own], TagSets(Shown(nodes), defs));
      assert GroupNames(groups)[k - own] == groups[k - own].name;
    } else {
      TailTag(k - own - |defs|);
    }
  }

  /** A tag that a group object lists is the tag of some object of the configuration. */
  lemma MembersArePrinted(nodes: seq<Node>, defs: seq<Def>, compile: Compile, rules: seq<Rule>, i: nat, t: string)
    requires var doc := ConfigOf(nodes, defs, compile, rules).document;
             i < |defs| && i < |doc.groups| && t in doc.groups[i].outbounds
    ensures exists ob :: ob in ConfigOf(nodes, defs, compile, rules).outbounds && At(ob, "tag") == Some(Str(t))
  {
    hide At, DocumentOf;
    var config := ConfigOf(nodes, defs, compile, rules);
    GroupsResolve(Shown(nodes), NamesOf(nodes), defs, compile, rules, i, t);
    var k :| 0 <= k < |config.document.tags| && config.document.tags[k] == t;
    TagCount(nodes, defs, compile, rules);
    ConfigTags(nodes, defs, compile, rules, k);
    assert config.outbounds[k] in config.outbounds;
  }
}
