/**
  What the objects and lines of groups say of their definitions (internal/generator/clash.go,
  internal/generator/singbox.go, internal/generator/surge.go), and in which order members stand.
 */
module GroupLaws {
  import opened Wrappers
  import opened Text
  import opened Decimal
  import opened UniqueNames
  import opened Rules
  import opened SingboxRouting
  import opened Groups

  // ---------- order ----------

  /** The first selector that means x. */
  ghost predicate FirstMeant(selectors: seq<string>, compile: Compile, names: seq<string>, shown: seq<string>,
                             x: string, i: nat)
  {
    && i < |selectors| && Selects(selectors[i], compile, names, shown, x)
    && forall k :: 0 <= k < i ==> !Selects(selectors[k], compile, names, shown, x)
  }

  /** The names a selector chooses among. */
  function Choices(selector: string, names: seq<string>, shown: seq<string>): seq<string>
  {
    if selector == ".*" then shown else names
  }

  /** x stands before y in a list of names, by their first places. */
  ghost predicate Before(xs: seq<string>, x: string, y: string)
  {
    x in xs && y in xs && FirstIndex(xs, x) < FirstIndex(xs, y)
  }

  lemma {:induction false} FirstIndexConcat(a: seq<string>, b: seq<string>, x: string)
    requires x in a + b
    ensures FirstIndex(a + b, x) == if x in a then FirstIndex(a, x) else |a| + FirstIndex(b, x)
  {
    if b == [] {
      assert a + b == a;
    } else {
      var n := |b| - 1;
      assert (a + b)[..|a| + n] == a + b[..n];
      assert (a + b)[|a| + n] == b[n];
      if x in a + b[..n] { FirstIndexConcat(a, b[..n], x); }
    }
  }

  lemma {:induction false} MatchingOrder(names: seq<string>, re: string -> bool, x: string, y: string)
    requires Before(names, x, y) && re(x) && re(y)
    ensures Before(Matching(names, re), x, y)
  {
    var n := |names| - 1;
    var front, last := Matching(names[..n], re), if re(names[n]) then [names[n]] else [];
    MatchingAre(names[..n], re);
    MatchingAre(names, re);
    assert names == names[..n] + [names[n]];
    FirstIndexConcat(front, last, x);
    FirstIndexConcat(front, last, y);
    if y in names[..n] { MatchingOrder(names[..n], re, x, y); }
    hide Matching;
  }

  lemma PicksAre(selector: string, compile: Compile, names: seq<string>, shown: seq<string>, x: string)
    ensures x in Picks(selector, compile, names, shown) <==> Selects(selector, compile, names, shown, x)
  {
    if compile(selector).Some? { MatchingAre(names, compile(selector).value); }
    hide Matching;
  }

  lemma PicksOrder(selector: string, compile: Compile, names: seq<string>, shown: seq<string>, x: string, y: string)
    requires Selects(selector, compile, names, shown, x) && Selects(selector, compile, names, shown, y)
    requires Before(Choices(selector, names, shown), x, y)
    ensures Before(Picks(selector, compile, names, shown), x, y)
  {
    if Literal(selector).None? && selector != ".*" { MatchingOrder(names, compile(selector).value, x, y); }
    hide Matching, FirstIndex;
  }

  /** An earlier selector means x before one means y, or the same one means both and x stands first among its names. */
  ghost predicate ComesFirst(selectors: seq<string>, compile: Compile, names: seq<string>, shown: seq<string>,
                             x: string, y: string)
  {
    exists i: nat, j: nat ::
      && FirstMeant(selectors, compile, names, shown, x, i) && FirstMeant(selectors, compile, names, shown, y, j)
      && (i < j || (i == j && Before(Choices(selectors[i], names, shown), x, y)))
  }

  lemma {:induction false} PickedOrder(selectors: seq<string>, compile: Compile, names: seq<string>, shown: seq<string>,
                                       x: string, y: string)
    requires ComesFirst(selectors, compile, names, shown, x, y)
    ensures Before(Picked(selectors, compile, names, shown), x, y)
  {
    var i: nat, j: nat :| FirstMeant(selectors, compile, names, shown, x, i)
                          && FirstMeant(selectors, compile, names, shown, y, j)
                          && (i < j || (i == j && Before(Choices(selectors[i], names, shown), x, y)));
    var n := |selectors| - 1;
    var front, last := selectors[..n], Picks(selectors[n], compile, names, shown);
    var before := Picked(front, compile, names, shown);
    hide Picks, Selects, FirstIndex;
    PickedAre(selectors, compile, names, shown, x);
    PickedAre(selectors, compile, names, shown, y);
    FrontPicked(selectors, compile, names, shown, x, i);
    FrontPicked(selectors, compile, names, shown, y, j);
    assert Picked(selectors, compile, names, shown) == before + last;
    FirstIndexConcat(before, last, x);
    FirstIndexConcat(before, last, y);
    if j < n {
      FirstMeantBelow(selectors, compile, names, shown, x, i);
      FirstMeantBelow(selectors, compile, names, shown, y, j);
      assert ComesFirst(front, compile, names, shown, x, y);
      PickedOrder(front, compile, names, shown, x, y);
    } else if i == n {
      PicksOrder(selectors[n], compile, names, shown, x, y);
    }
  }

  lemma FirstMeantBelow(selectors: seq<string>, compile: Compile, names: seq<string>, shown: seq<string>, x: string,
                        i: nat)
    requires i + 1 < |selectors| && FirstMeant(selectors, compile, names, shown, x, i)
    ensures FirstMeant(selectors[..|selectors| - 1], compile, names, shown, x, i)
  {
    hide Selects;
    var front := selectors[..|selectors| - 1];
    assert forall k :: 0 <= k < |front| ==> front[k] == selectors[k];
  }

  lemma FrontPicked(selectors: seq<string>, compile: Compile, names: seq<string>, shown: seq<string>, x: string, i: nat)
    requires FirstMeant(selectors, compile, names, shown, x, i)
    ensures var n := |selectors| - 1; x in Picked(selectors[..n], compile, names, shown) <==> i < n
  {
    hide Selects, Picked;
    var n := |selectors| - 1;
    var front := selectors[..n];
    PickedAre(front, compile, names, shown, x);
    assert forall k :: 0 <= k < n ==> front[k] == selectors[k];
    if i < n { assert Selects(front[i], compile, names, shown, x); }
  }

  /** Members stand selector by selector, and within one selector as its names do. */
  lemma MembersInOrder(selectors: seq<string>, compile: Compile, names: seq<string>, shown: seq<string>, i: nat, j: nat)
    requires var ms := Members(selectors, compile, names, shown); i < |ms| && j < |ms| && i != j
    requires var ms := Members(selectors, compile, names, shown);
             ComesFirst(selectors, compile, names, shown, ms[i], ms[j])
    ensures i < j
  {
    var ms, all := Members(selectors, compile, names, shown), Picked(selectors, compile, names, shown);
    PickedOrder(selectors, compile, names, shown, ms[i], ms[j]);
    FirstsAre(all);
    hide Firsts, Picked, FirstIndex, ComesFirst;
  }

  // ---------- objects and lines ----------

  const DEFAULT_TEST := "https://www.gstatic.com/generate_204"

  /** What sing-box calls one member, nothing for a name that no outbound has. */
  function TagOf(m: string, tags: Tags): seq<string>
  {
    match m
    case "DIRECT" => ["direct"]
    case "REJECT" => ["block"]
    case "REJECT-DROP" => ["block"]
    case _ => if m in tags.groups || m in tags.emitted then [m] else []
  }

  /** Members become tags place by place. */
  lemma {:induction false} TagsByPlace(ms: seq<string>, m: string, tags: Tags)
    ensures TagsOfMembers(ms + [m], tags) == TagsOfMembers(ms, tags) + TagOf(m, tags) && TagsOfMembers([], tags) == []
  {
    assert (ms + [m])[..|ms|] == ms;
  }

  /** The object of a group: its name, its members' tags, and for any type but select what the test needs. */
  lemma GroupObject(shown: seq<string>, names: seq<string>, defs: seq<Def>, compile: Compile, rules: seq<Rule>, i: nat)
    requires i < |defs|
    ensures var doc, d := DocumentOf(shown, names, defs, compile, rules), defs[i];
            var members := Members(d.selectors, compile, names, shown);
            var tagged := TagsOfMembers(if members == [] then ["DIRECT"] else members, TagSets(shown, defs));
            && |doc.groups| == |defs|
            && doc.groups[i].tag == d.name
            && doc.groups[i].outbounds == (if tagged == [] then ["direct"] else tagged)
            && (doc.groups[i].Selector? <==> d.typ == "select")
            && (doc.groups[i].UrlTest? ==>
                  && doc.groups[i].url == (if d.testUrl == "" then DEFAULT_TEST else d.testUrl)
                  && doc.groups[i].interval == (if d.interval > 0 then Itoa(d.interval) + "s" else "300s")
                  && doc.groups[i].tolerance == (if d.tolerance > 0 then Some(d.tolerance) else None))
  {
    hide Members, TagsOfMembers, RoutesOf, FinalOf;
    assert Itoa(300) == "300" by { ThreeHundred(); }
    assert "300" + "s" == "300s";
    hide Itoa;
  }

  lemma ThreeHundred()
    ensures Itoa(300) == "300"
  {
    assert Digits(3) == "3" && Digits(30) == "3" + "0";
  }

  /** The line of a Surge group: a type Surge has, the members kept place by place, and options for the tested types. */
  lemma SurgeLine(g: Group, emitted: set<string>)
    ensures var kept := SurgeMembers(g.proxies, emitted);
            var members := if kept == [] then ["DIRECT"] else kept;
            var typ := if g.typ in {"url-test", "fallback", "load-balance"} then g.typ else "select";
            var tested := g.typ in {"url-test", "fallback", "load-balance"};
            SurgeParts(g, emitted) == [typ] + members
              + (if tested && g.url != "" then ["url=" + g.url] else [])
              + (if tested && g.interval > 0 then ["interval=" + Itoa(g.interval)] else [])
              + (if tested && g.tolerance > 0 then ["tolerance=" + Itoa(g.tolerance)] else [])
  {
    hide SurgeMembers, Itoa;
  }

  lemma {:induction false} SurgeByPlace(ms: seq<string>, m: string, emitted: set<string>)
    ensures SurgeMembers([], emitted) == []
    ensures SurgeMembers(ms + [m], emitted) == SurgeMembers(ms, emitted)
              + if m in {"DIRECT", "REJECT", "REJECT-DROP"} || m in emitted then [m] else []
  {
    assert (ms + [m])[..|ms|] == ms;
  }
}
