/**
  Proxy groups (internal/generator/clash.go, resolveSelectors and buildGroups) and what the sing-box and
  Surge targets make of them (internal/generator/singbox.go, internal/generator/surge.go).

  Compiling a regular expression is a parameter: None is an error, Some tells which names match.
 */
module Groups {
  import opened Wrappers
  import opened Text
  import opened Decimal
  import opened UniqueNames
  import opened Rules
  import opened SingboxRouting

  type Compile = string -> Option<string -> bool>

  /** custom_proxy_group, as the external configuration gives it. */
  datatype Def = Def(name: string, typ: string, selectors: seq<string>, testUrl: string, interval: int, timeout: int,
                     tolerance: int)

  datatype Group = Group(name: string, typ: string, proxies: seq<string>, url: string, interval: int, timeout: int,
                         tolerance: int)

  // ---------- members ----------

  function Literal(selector: string): Option<string> { if "[]" <= selector then Some(selector[2..]) else None }

  function Matching(names: seq<string>, re: string -> bool): seq<string>
  {
    if names == [] then [] else
    var n := |names| - 1;
    Matching(names[..n], re) + if re(names[n]) then [names[n]] else []
  }

  /** The names one selector stands for; names are the prepared nodes', shown those that the target can print. */
  function Picks(selector: string, compile: Compile, names: seq<string>, shown: seq<string>): seq<string>
  {
    if Literal(selector).Some? then [Literal(selector).value]
    else if selector == ".*" then shown
    else if compile(selector).Some? then Matching(names, compile(selector).value)
    else []
  }

  function Picked(selectors: seq<string>, compile: Compile, names: seq<string>, shown: seq<string>): seq<string>
  {
    if selectors == [] then [] else
    var n := |selectors| - 1;
    Picked(selectors[..n], compile, names, shown) + Picks(selectors[n], compile, names, shown)
  }

  /** The non-empty names, each where it first stands. */
  function Firsts(xs: seq<string>): seq<string>
  {
    if xs == [] then [] else
    var n := |xs| - 1;
    var before := Firsts(xs[..n]);
    if xs[n] == "" || xs[n] in before then before else before + [xs[n]]
  }

  function Members(selectors: seq<string>, compile: Compile, names: seq<string>, shown: seq<string>): seq<string>
  {
    Firsts(Picked(selectors, compile, names, shown))
  }

  method Add(out: seq<string>, seen: set<string>, name: string, ghost xs: seq<string>)
    returns (out': seq<string>, seen': set<string>)
    requires out == Firsts(xs) && seen == Taken(out)
    ensures out' == Firsts(xs + [name]) && seen' == Taken(out')
  {
    out', seen' := out, seen;
    assert (xs + [name])[..|xs|] == xs;
    if name != "" && name !in seen {
      seen' := seen + {name};
      out' := out + [name];
    }
  }

  method AddAll(out: seq<string>, seen: set<string>, ns: seq<string>, ghost xs: seq<string>)
    returns (out': seq<string>, seen': set<string>)
    requires out == Firsts(xs) && seen == Taken(out)
    ensures out' == Firsts(xs + ns) && seen' == Taken(out')
  {
    hide Firsts, Taken;
    out', seen' := out, seen;
    assert xs + ns[..0] == xs;
    for i := 0 to |ns|
      invariant out' == Firsts(xs + ns[..i]) && seen' == Taken(out')
    {
      assert xs + ns[..i + 1] == (xs + ns[..i]) + [ns[i]];
      out', seen' := Add(out', seen', ns[i], xs + ns[..i]);
    }
    assert ns[..|ns|] == ns;
  }

  method AddMatching(out: seq<string>, seen: set<string>, names: seq<string>, re: string -> bool, ghost xs: seq<string>)
    returns (out': seq<string>, seen': set<string>)
    requires out == Firsts(xs) && seen == Taken(out)
    ensures out' == Firsts(xs + Matching(names, re)) && seen' == Taken(out')
  {
    hide Firsts, Taken;
    out', seen' := out, seen;
    assert xs + Matching(names[..0], re) == xs;
    for i := 0 to |names|
      invariant out' == Firsts(xs + Matching(names[..i], re)) && seen' == Taken(out')
    {
      assert names[..i + 1][..i] == names[..i];
      ghost var before := xs + Matching(names[..i], re);
      if re(names[i]) {
        assert xs + Matching(names[..i + 1], re) == before + [names[i]];
        out', seen' := Add(out', seen', names[i], before);
      } else {
        assert xs + Matching(names[..i + 1], re) == before;
      }
    }
    assert names[..|names|] == names;
  }

  method ResolveSelectors(selectors: seq<string>, compile: Compile, names: seq<string>, shown: seq<string>)
    returns (out: seq<string>)
    ensures out == Members(selectors, compile, names, shown)
  {
    var seen: set<string> := {};
    out := [];
    ghost var xs := [];
    for i := 0 to |selectors|
      invariant xs == Picked(selectors[..i], compile, names, shown)
      invariant out == Firsts(xs) && seen == Taken(out)
    {
      hide Firsts, Taken, Matching;
      assert selectors[..i + 1][..i] == selectors[..i];
      ghost var before := xs;
      var sel := selectors[i];
      xs := before + Picks(sel, compile, names, shown);
      if Literal(sel).Some? {
        out, seen := Add(out, seen, Literal(sel).value, before);
        continue;
      }
      if sel == ".*" {
        out, seen := AddAll(out, seen, shown, before);
        continue;
      }
      var re := compile(sel);
      if re.None? {
        assert before + [] == before;
        continue;
      }
      out, seen := AddMatching(out, seen, names, re.value, before);
    }
    assert selectors[..|selectors|] == selectors;
  }

  // ---------- what the members are ----------

  function FirstIndex(xs: seq<string>, x: string): (i: nat)
    requires x in xs
    ensures i < |xs| && xs[i] == x && x !in xs[..i]
  {
    var n := |xs| - 1;
    if x in xs[..n] then assert xs[..n][..FirstIndex(xs[..n], x)] == xs[..FirstIndex(xs[..n], x)];
        FirstIndex(xs[..n], x) else n
  }

  /** Exactly the non-empty names, none twice, in the order in which they first stand. */
  lemma {:induction false} FirstsAre(xs: seq<string>)
    ensures Distinct(Firsts(xs))
    ensures forall x :: x in Firsts(xs) <==> x in xs && x != ""
    ensures forall i, j :: 0 <= i < j < |Firsts(xs)| ==>
              Firsts(xs)[i] in xs && Firsts(xs)[j] in xs
                  && FirstIndex(xs, Firsts(xs)[i]) < FirstIndex(xs, Firsts(xs)[j])
  {
    if xs != [] {
      var n := |xs| - 1;
      var before := Firsts(xs[..n]);
      FirstsAre(xs[..n]);
      assert xs == xs[..n] + [xs[n]];
      forall i, j | 0 <= i < j < |Firsts(xs)|
        ensures Firsts(xs)[i] in xs && Firsts(xs)[j] in xs
                && FirstIndex(xs, Firsts(xs)[i]) < FirstIndex(xs, Firsts(xs)[j])
      {
        assert Firsts(xs)[i] in before;
      }
    }
  }

  lemma {:induction false} MatchingAre(names: seq<string>, re: string -> bool)
    ensures forall x :: x in Matching(names, re) <==> x in names && re(x)
  {
    if names != [] {
      var n := |names| - 1;
      MatchingAre(names[..n], re);
      assert names == names[..n] + [names[n]];
    }
  }

  /** A selector means x: by name, as one of all, or by pattern. */
  predicate Selects(selector: string, compile: Compile, names: seq<string>, shown: seq<string>, x: string)
  {
    if Literal(selector).Some? then x == Literal(selector).value
    else if selector == ".*" then x in shown
    else compile(selector).Some? && x in names && compile(selector).value(x)
  }

  lemma {:induction false} PickedAre(selectors: seq<string>, compile: Compile, names: seq<string>, shown: seq<string>,
                                     x: string)
    ensures x in Picked(selectors, compile, names, shown) <==>
            exists i :: 0 <= i < |selectors| && Selects(selectors[i], compile, names, shown, x)
  {
    if selectors != [] {
      var n := |selectors| - 1;
      PickedAre(selectors[..n], compile, names, shown, x);
      if compile(selectors[n]).Some? { MatchingAre(names, compile(selectors[n]).value); }
      assert selectors == selectors[..n] + [selectors[n]];
      hide Matching;
    }
  }

  /** A group's members are exactly the non-empty names its selectors mean, none twice. */
  lemma MembersAre(selectors: seq<string>, compile: Compile, names: seq<string>, shown: seq<string>, x: string)
    ensures Distinct(Members(selectors, compile, names, shown))
    ensures x in Members(selectors, compile, names, shown) <==>
            x != "" && exists i :: 0 <= i < |selectors| && Selects(selectors[i], compile, names, shown, x)
  {
    PickedAre(selectors, compile, names, shown, x);
    FirstsAre(Picked(selectors, compile, names, shown));
    hide Firsts, Picked, Selects, Distinct;
  }

  // ---------- groups ----------

  function GroupOf(d: Def, compile: Compile, names: seq<string>, shown: seq<string>): Group
  {
    var ms := Members(d.selectors, compile, names, shown);
    Group(d.name, d.typ, if ms == [] then ["DIRECT"] else ms, d.testUrl, d.interval, d.timeout, d.tolerance)
  }

  function GroupsOf(defs: seq<Def>, compile: Compile, names: seq<string>, shown: seq<string>): (r: seq<Group>)
    ensures |r| == |defs|
  {
    seq(|defs|, i requires 0 <= i < |defs| => GroupOf(defs[i], compile, names, shown))
  }

  /** The names of the groups whose selectors mean nothing. */
  function EmptyOf(defs: seq<Def>, compile: Compile, names: seq<string>, shown: seq<string>): seq<string>
  {
    if defs == [] then [] else
    var n := |defs| - 1;
    EmptyOf(defs[..n], compile, names, shown)
        + if Members(defs[n].selectors, compile, names, shown) == [] then [defs[n].name] else []
  }

  method BuildGroups(defs: seq<Def>, compile: Compile, names: seq<string>, shown: seq<string>)
    returns (groups: seq<Group>, empty: seq<string>)
    ensures groups == GroupsOf(defs, compile, names, shown) && empty == EmptyOf(defs, compile, names, shown)
  {
    hide Members;
    groups, empty := [], [];
    for i := 0 to |defs|
      invariant groups == GroupsOf(defs[..i], compile, names, shown)
              && empty == EmptyOf(defs[..i], compile, names, shown)
    {
      var d := defs[i];
      assert defs[..i + 1][..i] == defs[..i];
      var members := ResolveSelectors(d.selectors, compile, names, shown);
      if |members| == 0 {
        members := ["DIRECT"];
        empty := empty + [d.name];
      }
      groups := groups + [Group(d.name, d.typ, members, d.testUrl, d.interval, d.timeout, d.tolerance)];
    }
    assert defs[..|defs|] == defs;
  }

  // ---------- sing-box ----------

  datatype GroupOutbound =
    | Selector(tag: string, outbounds: seq<string>)
    | UrlTest(tag: string, outbounds: seq<string>, url: string, interval: string, tolerance: Option<int>)

  const BUILTIN: set<string> := {"DIRECT", "REJECT", "REJECT-DROP"}

  predicate Classified(m: string, tags: Tags) { m in BUILTIN || m in tags.groups || m in tags.emitted }

  function TagsOfMembers(ms: seq<string>, tags: Tags): seq<string>
  {
    if ms == [] then [] else
    var n := |ms| - 1;
    TagsOfMembers(ms[..n], tags) + if Classified(ms[n], tags) then [OutboundRef(ms[n], tags)] else []
  }

  function OrDirect(ms: seq<string>, direct: string): seq<string> { if ms == [] then [direct] else ms }

  function GroupTree(g: Group, tags: Tags): GroupOutbound
  {
    var members := OrDirect(TagsOfMembers(g.proxies, tags), "direct");
    if g.typ == "select" then Selector(g.name, members)
    else
      UrlTest(g.name, members, if g.url != "" then g.url else "https://www.gstatic.com/generate_204",
              Itoa(if g.interval <= 0 then 300 else g.interval)
                  + "s", if g.tolerance > 0 then Some(g.tolerance) else None)
  }

  method SingboxGroupOutbound(g: Group, tags: Tags) returns (ob: GroupOutbound)
    ensures ob == GroupTree(g, tags)
  {
    hide Itoa;
    var members := [];
    for i := 0 to |g.proxies|
      invariant members == TagsOfMembers(g.proxies[..i], tags)
    {
      assert g.proxies[..i + 1][..i] == g.proxies[..i];
      var m := g.proxies[i];
      match m {
        case "DIRECT" => members := members + ["direct"];
        case "REJECT" => members := members + ["block"];
        case "REJECT-DROP" => members := members + ["block"];
        case _ =>
          if m in tags.groups || m in tags.emitted {
            members := members + [m];
          }
      }
    }
    assert g.proxies[..|g.proxies|] == g.proxies;
    if |members| == 0 {
      members := ["direct"];
    }
    if g.typ == "select" {
      return Selector(g.name, members);
    }
    var interval := g.interval;
    if interval <= 0 {
      interval := 300;
    }
    ob := UrlTest(g.name, members, if g.url != "" then g.url else "https://www.gstatic.com/generate_204", Itoa(interval)
        + "s",
                  if g.tolerance > 0 then Some(g.tolerance) else None);
  }

  /** What of a sing-box configuration names an outbound, and the outbounds it defines. */
  datatype Document = Document(tags: seq<string>, groups: seq<GroupOutbound>, routes: seq<Route>, final: string)

  const TAIL: seq<string> := ["direct", "block", "dns-out"]

  function DefNames(defs: seq<Def>): (r: seq<string>)
    ensures |r| == |defs|
  {
    seq(|defs|, i requires 0 <= i < |defs| => defs[i].name)
  }

  function TagSets(shown: seq<string>, defs: seq<Def>): Tags { Tags(Taken(shown), Taken(DefNames(defs))) }

  function Trees(groups: seq<Group>, tags: Tags): (r: seq<GroupOutbound>)
    ensures |r| == |groups|
  {
    seq(|groups|, i requires 0 <= i < |groups| => GroupTree(groups[i], tags))
  }

  function DocumentOf(shown: seq<string>, names: seq<string>, defs: seq<Def>, compile: Compile,
                      rules: seq<Rule>): Document
  {
    var tags := TagSets(shown, defs);
    Document(shown + DefNames(defs) + TAIL, Trees(GroupsOf(defs, compile, names, shown), tags), RoutesOf(rules, tags),
        FinalOf(rules, tags))
  }

  /** The group and route part of GenerateSingbox; names are the prepared nodes', shown those with an outbound. */
  method GenerateDocument(shown: seq<string>, names: seq<string>, defs: seq<Def>, compile: Compile, rules: seq<Rule>,
                          unread: seq<string>)
    returns (doc: Document, empty: seq<string>, skipped: seq<string>)
    ensures doc == DocumentOf(shown, names, defs, compile, rules)
    ensures empty == EmptyOf(defs, compile, names, shown) && skipped == unread + SkipsOf(rules)
  {
    hide GroupTree, GroupsOf, Trees, RoutesOf, FinalOf, SkipsOf, EmptyOf;
    var tags := Tags(set x | x in shown, set x | x in DefNames(defs));
    var groups, outbounds, tagged, routes, final;
    groups, empty := BuildGroups(defs, compile, names, shown);
    NamesOfGroups(defs, compile, names, shown);
    outbounds, tagged := GroupOutbounds(groups, tags);
    routes, final, skipped := RouteRules(rules, unread, tags);
    doc := Document(shown + tagged + TAIL, outbounds, routes, final);
  }

  function GroupNames(groups: seq<Group>): (r: seq<string>)
    ensures |r| == |groups|
  {
    seq(|groups|, i requires 0 <= i < |groups| => groups[i].name)
  }

  method GroupOutbounds(groups: seq<Group>, tags: Tags) returns (outbounds: seq<GroupOutbound>, tagged: seq<string>)
    ensures outbounds == Trees(groups, tags) && tagged == GroupNames(groups)
  {
    hide GroupTree;
    outbounds, tagged := [], [];
    for i := 0 to |groups|
      invariant outbounds == Trees(groups[..i], tags) && tagged == GroupNames(groups[..i])
    {
      var ob := SingboxGroupOutbound(groups[i], tags);
      TreeTag(groups[i], tags);
      outbounds := outbounds + [ob];
      tagged := tagged + [ob.tag];
    }
    assert groups[..|groups|] == groups;
  }

  lemma TreeTag(g: Group, tags: Tags)
    ensures GroupTree(g, tags).tag == g.name
  {
  }

  lemma NamesOfGroups(defs: seq<Def>, compile: Compile, names: seq<string>, shown: seq<string>)
    ensures GroupNames(GroupsOf(defs, compile, names, shown)) == DefNames(defs)
  {
  }

  // ---------- references resolve ----------

  lemma {:induction false} MemberTagsAre(ms: seq<string>, tags: Tags, t: string)
    ensures t in TagsOfMembers(ms, tags) <==>
            exists i :: 0 <= i < |ms| && Classified(ms[i], tags) && t == OutboundRef(ms[i], tags)
  {
    if ms != [] {
      var n := |ms| - 1;
      MemberTagsAre(ms[..n], tags, t);
      assert ms == ms[..n] + [ms[n]];
      hide OutboundRef, Classified;
    }
  }

  lemma ClassifiedResolves(m: string, shown: seq<string>, defs: seq<Def>)
    requires Classified(m, TagSets(shown, defs))
    ensures OutboundRef(m, TagSets(shown, defs)) in shown + DefNames(defs) + TAIL
  {
    var r := OutboundRef(m, TagSets(shown, defs));
    assert r in shown || r in DefNames(defs) || r in TAIL;
  }

  /** Every group of every document has a member, and every member is an outbound of the document. */
  lemma GroupsResolve(shown: seq<string>, names: seq<string>, defs: seq<Def>, compile: Compile, rules: seq<Rule>,
                      i: nat, t: string)
    requires i < |defs|
    ensures var doc := DocumentOf(shown, names, defs, compile, rules);
            |doc.groups| == |defs| && doc.groups[i].outbounds != [] && (t in doc.groups[i].outbounds ==> t in doc.tags)
  {
    var tags, g := TagSets(shown, defs), GroupOf(defs[i], compile, names, shown);
    var doc := DocumentOf(shown, names, defs, compile, rules);
    assert doc.groups[i] == GroupTree(g, tags);
    var ms := TagsOfMembers(g.proxies, tags);
    assert doc.groups[i].outbounds == OrDirect(ms, "direct");
    MemberTagsAre(g.proxies, tags, t);
    hide GroupTree, GroupOf, TagsOfMembers, Classified, OutboundRef, TagSets, RoutesOf, FinalOf;
    if t in ms {
      var k :| 0 <= k < |g.proxies| && Classified(g.proxies[k], tags) && t == OutboundRef(g.proxies[k], tags);
      ClassifiedResolves(g.proxies[k], shown, defs);
    } else if t in doc.groups[i].outbounds {
      assert t == TAIL[0];
    }
  }

  /** A rule's group is a built-in policy, a group, a printed node, or a tag written out. */
  predicate NamesOutbound(group: string, shown: seq<string>, defs: seq<Def>)
  {
    group in BUILTIN || group in shown || group in DefNames(defs) || group in TAIL
  }

  lemma RefResolvesIff(group: string, shown: seq<string>, defs: seq<Def>)
    ensures OutboundRef(group, TagSets(shown, defs)) in shown + DefNames(defs) + TAIL <==>
            NamesOutbound(group, shown, defs)
  {
    var r := OutboundRef(group, TagSets(shown, defs));
    assert r in shown + DefNames(defs) + TAIL <==> r in shown || r in DefNames(defs) || r in TAIL;
    assert TAIL[0] == "direct" && TAIL[1] == "block";
  }

  ghost predicate OutboundsIn(routes: seq<Route>, defined: seq<string>)
  {
    forall k :: 0 <= k < |routes| && routes[k].Route? ==> routes[k].outbound in defined
  }

  /** All that the routes and `final` refer to is defined. */
  ghost predicate RoutesResolve(doc: Document) { OutboundsIn(doc.routes, doc.tags) && doc.final in doc.tags }

  /** Rules that leave a trace: expressible ones, and the last catch-all. */
  predicate LeavesTrace(rules: seq<Rule>, j: nat)
    requires j < |rules|
  {
    IsRoute(rules[j]) || IsLastCatchAll(rules, j)
  }

  /** The rule becomes a route rule. */
  predicate IsRoute(r: Rule) { !r.IsMatch() && Express(r).Some? }

  function LastRoute(r: Rule, tags: Tags): seq<Route>
  {
    if IsRoute(r) then [Route(Express(r).value, OutboundRef(r.group, tags))] else []
  }

  lemma RoutesSnoc(rules: seq<Rule>, r: Rule, tags: Tags)
    ensures RoutesOf(rules + [r], tags) == RoutesOf(rules, tags) + LastRoute(r, tags)
  {
    hide Express, OutboundRef;
    assert (rules + [r])[..|rules|] == rules;
  }

  lemma LastRouteIn(r: Rule, tags: Tags, defined: seq<string>)
    ensures OutboundsIn(LastRoute(r, tags), defined) <==> (IsRoute(r) ==> OutboundRef(r.group, tags) in defined)
  {
    hide Express, OutboundRef;
    if IsRoute(r) { assert LastRoute(r, tags)[0].outbound == OutboundRef(r.group, tags); }
  }

  lemma {:induction false} RouteTargets(rules: seq<Rule>, tags: Tags, defined: seq<string>)
    ensures OutboundsIn(RoutesOf(rules, tags), defined) <==>
            forall j :: 0 <= j < |rules| && IsRoute(rules[j]) ==> OutboundRef(rules[j].group, tags) in defined
  {
    if rules == [] {
      assert RoutesOf(rules, tags) == [Dns];
    } else {
      hide *;
      var n := |rules| - 1;
      RouteTargets(rules[..n], tags, defined);
      assert rules == rules[..n] + [rules[n]];
      RoutesSnoc(rules[..n], rules[n], tags);
      OutboundsConcat(RoutesOf(rules[..n], tags), LastRoute(rules[n], tags), defined);
      LastRouteIn(rules[n], tags, defined);
    }
  }

  lemma OutboundsConcat(a: seq<Route>, b: seq<Route>, defined: seq<string>)
    ensures OutboundsIn(a + b, defined) <==> OutboundsIn(a, defined) && OutboundsIn(b, defined)
  {
    assert forall k :: 0 <= k < |a| ==> (a + b)[k] == a[k];
    assert forall k :: 0 <= k < |b| ==> (a + b)[|a| + k] == b[k];
  }

  /**
    Nothing a configuration refers to is missing exactly when every rule that leaves a trace names a
    built-in policy, a group, a printed node or a tag.
   */
  lemma RoutesResolveIff(shown: seq<string>, names: seq<string>, defs: seq<Def>, compile: Compile, rules: seq<Rule>)
    ensures RoutesResolve(DocumentOf(shown, names, defs, compile, rules)) <==>
            forall j :: 0 <= j < |rules| && LeavesTrace(rules, j) ==> NamesOutbound(rules[j].group, shown, defs)
  {
    var doc, tags := DocumentOf(shown, names, defs, compile, rules), TagSets(shown, defs);
    assert doc.routes == RoutesOf(rules, tags) && doc.final == FinalOf(rules, tags)
        && doc.tags == shown + DefNames(defs) + TAIL;
    assert TAIL[0] in doc.tags;
    RouteTargets(rules, tags, doc.tags);
    FinalTarget(rules, tags, doc.tags);
    forall j | 0 <= j < |rules|
      ensures OutboundRef(rules[j].group, tags) in doc.tags <==> NamesOutbound(rules[j].group, shown, defs)
    {
      RefResolvesIff(rules[j].group, shown, defs);
    }
    hide DocumentOf, OutboundsIn, RoutesOf, FinalOf, TagSets, OutboundRef, NamesOutbound, Express, IsLastCatchAll;
  }

  /** `final` is the last catch-all's outbound, or direct. */
  lemma FinalTarget(rules: seq<Rule>, tags: Tags, defined: seq<string>)
    requires "direct" in defined
    ensures FinalOf(rules, tags) in defined <==>
            forall j :: 0 <= j < |rules| && rules[j].IsMatch() && IsLastCatchAll(rules, j) ==>
                OutboundRef(rules[j].group, tags) in defined
  {
    hide FinalOf, OutboundRef;
    if j :| 0 <= j < |rules| && IsLastCatchAll(rules, j) {
      FinalIsLast(rules, tags, j);
    } else {
      NoLastCatchAll(rules);
      FinalIsDirect(rules, tags);
    }
  }

  lemma {:induction false} NoLastCatchAll(rules: seq<Rule>)
    requires forall j :: 0 <= j < |rules| ==> !IsLastCatchAll(rules, j)
    ensures forall j :: 0 <= j < |rules| ==> !rules[j].IsMatch()
  {
    if j :| 0 <= j < |rules| && rules[j].IsMatch() {
      LaterCatchAll(rules, j);
    }
  }

  lemma {:induction false} LaterCatchAll(rules: seq<Rule>, j: nat)
    requires j < |rules| && rules[j].IsMatch()
    ensures exists k :: 0 <= k < |rules| && IsLastCatchAll(rules, k)
    decreases |rules| - j
  {
    if IsLastCatchAll(rules, j) {
    } else {
      var k :| j < k < |rules| && rules[k].IsMatch();
      LaterCatchAll(rules, k);
    }
  }

  /** A sing-box group lists all of a group's members, each as its tag, exactly when each can be classified. */
  lemma {:induction false} MembersKeptIff(ms: seq<string>, tags: Tags)
    ensures |TagsOfMembers(ms, tags)| <= |ms|
    ensures |TagsOfMembers(ms, tags)| == |ms| <==> forall i :: 0 <= i < |ms| ==> Classified(ms[i], tags)
    ensures |TagsOfMembers(ms, tags)| == |ms| ==> forall i :: 0 <= i < |ms| ==>
            TagsOfMembers(ms, tags)[i] == OutboundRef(ms[i], tags)
  {
    if ms != [] {
      MembersKeptIff(ms[..|ms| - 1], tags);
      hide Classified, OutboundRef;
    }
  }

  // ---------- Surge ----------

  predicate SurgeKeeps(m: string, emitted: set<string>) { m in BUILTIN || m in emitted }

  function SurgeMembers(ms: seq<string>, emitted: set<string>): seq<string>
  {
    if ms == [] then [] else
    var n := |ms| - 1;
    SurgeMembers(ms[..n], emitted) + if SurgeKeeps(ms[n], emitted) then [ms[n]] else []
  }

  function SurgeType(typ: string): string
  {
    if typ in {"select", "url-test", "fallback", "load-balance"} then typ else "select"
  }

  function SurgeParts(g: Group, emitted: set<string>): seq<string>
  {
    var typ := SurgeType(g.typ);
    [typ] + OrDirect(SurgeMembers(g.proxies, emitted), "DIRECT")
      + if typ == "select" then [] else
          (if g.url != "" then ["url=" + g.url] else [])
          + (if g.interval > 0 then ["interval=" + Itoa(g.interval)] else [])
          + (if g.tolerance > 0 then ["tolerance=" + Itoa(g.tolerance)] else [])
  }

  /** What the emitted filter leaves of the members. */
  method SurgeFilter(ms: seq<string>, emitted: set<string>) returns (members: seq<string>)
    ensures members == OrDirect(SurgeMembers(ms, emitted), "DIRECT")
  {
    members := [];
    for i := 0 to |ms|
      invariant members == SurgeMembers(ms[..i], emitted)
    {
      assert ms[..i + 1][..i] == ms[..i];
      var m := ms[i];
      if m == "DIRECT" || m == "REJECT" || !(m != "DIRECT" && m != "REJECT" && m != "REJECT-DROP") || m in emitted {
        members := members + [m];
      }
    }
    assert ms[..|ms|] == ms;
    if |members| == 0 {
      members := ["DIRECT"];
    }
  }

  method FormatSurgeGroup(g: Group, emitted: set<string>) returns (line: string)
    ensures line == g.name + " = " + Join(SurgeParts(g, emitted), ", ")
  {
    hide Itoa, Join, SurgeMembers, OrDirect;
    var typ := g.typ;
    match typ {
      case "select" =>
      case "url-test" =>
      case "fallback" =>
      case "load-balance" =>
      case _ => typ := "select";
    }
    var members := SurgeFilter(g.proxies, emitted);
    var parts := [typ] + members;
    if typ != "select" {
      if g.url != "" { parts := parts + ["url=" + g.url]; }
      if g.interval > 0 { parts := parts + ["interval=" + Itoa(g.interval)]; }
      if g.tolerance > 0 { parts := parts + ["tolerance=" + Itoa(g.tolerance)]; }
    }
    assert parts == SurgeParts(g, emitted);
    line := g.name + " = " + Join(parts, ", ");
  }

  /** A Surge group lists built-in policies and printed nodes only: references to other groups go. */
  lemma {:induction false} SurgeMembersAre(ms: seq<string>, emitted: set<string>, m: string)
    ensures m in SurgeMembers(ms, emitted) <==> m in ms && (m in BUILTIN || m in emitted)
  {
    if ms != [] {
      var n := |ms| - 1;
      SurgeMembersAre(ms[..n], emitted, m);
      assert ms == ms[..n] + [ms[n]];
    }
  }
}
