/**
  Where packets go under expand=false and expand=true (internal/generator/clash.go): both outputs as
  clause lists over the same rulesets, and the exact condition under which they route alike.
 */
module ProviderRouting {
  import opened Wrappers
  import opened Text
  import opened Rules
  import opened RuleProviders
  import opened Clauses

  // ---------- the outputs as clauses ----------

  function LineClause(line: string, providers: map<string, Provider>): Option<Clause>
  {
    match Read(line)
    case Always(g) => Some(Clause(All, g))
    case FromProvider(name, flag, g) =>
      Some(Clause(if name in providers then List(providers[name].url) else Key("RULE-SET", name, flag), g))
    case When(typ, value, flag, g) => Some(Clause(Key(typ, value, flag), g))
    case Unreadable => None
  }

  function RulesetClause(rs: Ruleset, providers: map<string, Provider>): Option<Clause>
  {
    if rs.inline != "" then
      var line := ExpandInlineRule(rs.inline, rs.group);
      if line.Some? then LineClause(line.value, providers) else None
    else if rs.url != "" then Some(Clause(List(rs.url), rs.group))
    else None
  }

  function ListOf(c: Option<Clause>): seq<Clause> { if c.Some? then [c.value] else [] }

  function ClausesOf(rulesets: seq<Ruleset>, providers: map<string, Provider>): seq<Clause>
  {
    if rulesets == [] then [] else
    var n := |rulesets| - 1;
    ClausesOf(rulesets[..n], providers) + ListOf(RulesetClause(rulesets[n], providers))
  }

  function Tailscale(cidr: string): Clause { Clause(Key("IP-CIDR", cidr, "no-resolve"), "DIRECT") }

  function Front(cfg: Config): seq<Clause>
  {
    if cfg.tailscale then [Tailscale("100.64.0.0/10"), Tailscale("fd7a:115c:a1e0::/48")] else []
  }

  /** The configuration's clauses: the Tailscale lines, then one clause a ruleset. */
  function AllClauses(cfg: Config, providers: map<string, Provider>): seq<Clause>
  {
    Front(cfg) + if cfg.enableRuleGenerator then ClausesOf(cfg.rulesets, providers) else []
  }

  /** What holds of a packet, given the lists that match it. */
  function FactsOf(served: Served, m: Matcher): Facts
  {
    (t: Test) => match t
         case All => true
         case Key(typ, value, flag) => m(typ, value, flag)
         case List(url) => served(url)
  }

  function Decides(c: Option<Clause>, facts: Facts): Option<string>
  {
    if c.Some? && Holds(c.value.test, facts) then Some(c.value.group) else None
  }

  lemma RulesetDecidesAsClause(rs: Ruleset, providers: map<string, Provider>, served: Served, m: Matcher)
    ensures RulesetDecides(rs, providers, served, m) == Decides(RulesetClause(rs, providers), FactsOf(served, m))
  {
    hide ExpandInlineRule, Read, ListMatches;
  }

  lemma DecisionConcat(a: seq<Clause>, b: seq<Clause>, facts: Facts)
    ensures Decision(a + b, facts) == if Decision(a, facts).Some? then Decision(a, facts) else Decision(b, facts)
  {
    hide Holds;
    var i, j := First(a, facts), First(b, facts);
    if i < |a| {
      FirstIs(a + b, facts, i);
    } else if j < |b| {
      FirstIs(a + b, facts, |a| + j);
    }
  }

  lemma DecisionOfOne(c: Option<Clause>, facts: Facts)
    ensures Decision(ListOf(c), facts) == Decides(c, facts)
  {
    hide Holds;
    if Decides(c, facts).Some? { FirstIs(ListOf(c), facts, 0); }
  }

  lemma {:induction false} RulesetsDecideAsClauses(rulesets: seq<Ruleset>, providers: map<string, Provider>,
                                                   served: Served, m: Matcher)
    ensures FirstRuleset(rulesets, providers, served, m) == Decision(ClausesOf(rulesets, providers), FactsOf(served, m))
  {
    hide RulesetDecides, RulesetClause, Decides, FactsOf, Decision;
    if rulesets != [] {
      var n := |rulesets| - 1;
      RulesetsDecideAsClauses(rulesets[..n], providers, served, m);
      RulesetDecidesAsClause(rulesets[n], providers, served, m);
      DecisionOfOne(RulesetClause(rulesets[n], providers), FactsOf(served, m));
      DecisionConcat(ClausesOf(rulesets[..n], providers), ListOf(RulesetClause(rulesets[n], providers)),
          FactsOf(served, m));
      hide ListOf;
    } else {
      NoClauses(FactsOf(served, m));
    }
  }

  lemma NoClauses(facts: Facts)
    ensures Decision([], facts) == None
  {
  }

  lemma FrontDecides(cfg: Config, providers: map<string, Provider>, served: Served, m: Matcher)
    ensures FirstMatch(Begun(cfg).rules, providers, served, m) == Decision(Front(cfg), FactsOf(served, m))
  {
    hide Tailscale, Direct, FormatAll, FirstMatch, Decision, FactsOf;
    if cfg.tailscale {
      TailscaleLines();
      PairDecides("100.64.0.0/10", "fd7a:115c:a1e0::/48", providers, served, m);
    } else {
      NoClauses(FactsOf(served, m));
      NothingDecides(providers, served, m);
    }
  }

  lemma PairDecides(x: string, y: string, providers: map<string, Provider>, served: Served, m: Matcher)
    requires ',' !in x && ',' !in y
    ensures FirstMatch([Direct(x), Direct(y)], providers, served, m) ==
            Decision([Tailscale(x), Tailscale(y)], FactsOf(served, m))
  {
    hide Direct, Read, FirstMatch, Decision;
    TailscaleReads(x);
    TailscaleReads(y);
    FirstSnoc([Direct(x)], Direct(y), providers, served, m);
    FirstSnoc([], Direct(x), providers, served, m);
    NothingDecides(providers, served, m);
    assert [Direct(x)] + [Direct(y)] == [Direct(x), Direct(y)] && [] + [Direct(x)] == [Direct(x)];
    DecisionOfOne(Some(Tailscale(x)), FactsOf(served, m));
    DecisionOfOne(Some(Tailscale(y)), FactsOf(served, m));
    DecisionConcat([Tailscale(x)], [Tailscale(y)], FactsOf(served, m));
    assert [Tailscale(x)] + [Tailscale(y)] == [Tailscale(x), Tailscale(y)];
  }

  /** The inlined rules route by the clauses that know no provider. */
  lemma InlinedAsClauses(cfg: Config, fetch: Fetch, served: Served, m: Matcher)
    requires WellFormed(cfg) && ReadsAll(served, fetch, m)
    ensures FirstMatch(FormatAll(Collected(cfg, fetch)), map[], served, m) ==
            Decision(AllClauses(cfg, map[]), FactsOf(served, m))
  {
    var front := if cfg.tailscale then TAILSCALE else [];
    var rest := if cfg.enableRuleGenerator then NeutralAll(cfg.rulesets, fetch) else [];
    assert Collected(cfg, fetch) == front + rest;
    FormatNothing();
    assert Begun(cfg).rules == FormatAll(front);
    FrontDecides(cfg, map[], served, m);
    FormatConcat(front, rest);
    FirstMatchConcat(FormatAll(front), FormatAll(rest), map[], served, m);
    var facts := FactsOf(served, m);
    var tail := if cfg.enableRuleGenerator then ClausesOf(cfg.rulesets, map[]) else [];
    assert AllClauses(cfg, map[]) == Front(cfg) + tail;
    DecisionConcat(Front(cfg), tail, facts);
    if cfg.enableRuleGenerator {
      InlinedDecidesAsRulesets(cfg.rulesets, fetch, served, m);
      RulesetsDecideAsClauses(cfg.rulesets, map[], served, m);
    } else {
      NothingDecides(map[], served, m);
      NoClauses(facts);
    }
    hide *;
  }

  /** The RULE-SET lines and their providers route by the clauses that know the providers. */
  lemma ProvidersAsClauses(cfg: Config, served: Served, m: Matcher)
    requires WellFormed(cfg)
    ensures var providers := BuiltFrom(cfg).providers;
            FirstMatch(BuiltFrom(cfg).rules, providers, served, m) ==
                Decision(AllClauses(cfg, providers), FactsOf(served, m))
  {
    var providers, facts := BuiltFrom(cfg).providers, FactsOf(served, m);
    FrontDecides(cfg, providers, served, m);
    if cfg.enableRuleGenerator {
      BegunIsConsistent(cfg);
      ProvidersDecideAsRulesets(Begun(cfg), cfg.rulesets, providers, served, m);
      RulesetsDecideAsClauses(cfg.rulesets, providers, served, m);
      DecisionConcat(Front(cfg), ClausesOf(cfg.rulesets, providers), facts);
      assert AllClauses(cfg, providers) == Front(cfg) + ClausesOf(cfg.rulesets, providers);
    } else {
      assert AllClauses(cfg, providers) == Front(cfg);
    }
    hide Front, ClausesOf, Decision, FirstMatch, FirstRuleset, FactsOf, ExtendAll, Consistent, AllClauses;
  }

  // ---------- the two clause lists ----------

  /** What a test becomes when the generated providers are there. */
  function Sub(t: Test, providers: map<string, Provider>): Test
  {
    if t.Key? && t.typ == "RULE-SET" && t.value in providers then List(providers[t.value].url) else t
  }

  function SubAll(cs: seq<Clause>, providers: map<string, Provider>): (r: seq<Clause>)
    ensures |r| == |cs|
  {
    seq(|cs|, i requires 0 <= i < |cs| => Clause(Sub(cs[i].test, providers), cs[i].group))
  }

  lemma RulesetSub(rs: Ruleset, providers: map<string, Provider>)
    ensures ListOf(RulesetClause(rs, providers)) == SubAll(ListOf(RulesetClause(rs, map[])), providers)
  {
    hide ExpandInlineRule, Split;
  }

  lemma SubConcat(a: seq<Clause>, b: seq<Clause>, providers: map<string, Provider>)
    ensures SubAll(a + b, providers) == SubAll(a, providers) + SubAll(b, providers)
  {
    hide Sub;
  }

  lemma {:induction false} ClausesSub(rulesets: seq<Ruleset>, providers: map<string, Provider>)
    ensures ClausesOf(rulesets, providers) == SubAll(ClausesOf(rulesets, map[]), providers)
  {
    hide RulesetClause, SubAll, ListOf;
    if rulesets != [] {
      var n := |rulesets| - 1;
      ClausesSub(rulesets[..n], providers);
      RulesetSub(rulesets[n], providers);
      SubConcat(ClausesOf(rulesets[..n], map[]), ListOf(RulesetClause(rulesets[n], map[])), providers);
    } else {
      SubNothing(providers);
    }
  }

  lemma SubNothing(providers: map<string, Provider>)
    ensures SubAll([], providers) == []
  {
  }

  lemma AllClausesSub(cfg: Config, providers: map<string, Provider>)
    ensures AllClauses(cfg, providers) == SubAll(AllClauses(cfg, map[]), providers)
  {
    assert SubAll(Front(cfg), providers) == Front(cfg);
    ClausesSub(cfg.rulesets, providers);
    SubConcat(Front(cfg), if cfg.enableRuleGenerator then ClausesOf(cfg.rulesets, map[]) else [], providers);
    SubNothing(providers);
    hide SubAll, ClausesOf;
  }

  lemma AreTwins(cs: seq<Clause>, providers: map<string, Provider>)
    ensures Twins(cs, SubAll(cs, providers))
  {
  }

  // ---------- every combination of facts occurs ----------

  lemma EmptyListMatchesNothing(m: Matcher)
    ensures !ListMatches("", m)
  {
    assert Split("", '\n') == [""];
    assert [""][..0] == [];
    assert ParseLine("").Nothing?;
    hide ParseLine;
    assert ListRules([""], "") == [];
  }

  lemma CatchAllListMatches(m: Matcher)
    ensures ListMatches("MATCH", m)
  {
    hide TrimSpace, TrimRightSet, TrimSet, TrimPrefix;
    assert Split("MATCH", '\n') == ["MATCH"];
    OneField();
    assert ["MATCH"][..0] == [];
    hide ParseLine, Split;
    assert ListRules([], "") == [];
    assert ListRules(["MATCH"], "") == [Rule("MATCH", "", "", "")];
    assert EntryMatches(ListRules(["MATCH"], "")[0], m);
  }

  lemma OneField()
    ensures ParseLine("MATCH") == Entry("MATCH", "", "")
  {
    GraphIsTrimmed("MATCH");
    assert TrimRightSet("MATCH", {'\r'}) == "MATCH";
    assert Split("MATCH", ',') == ["MATCH"];
    hide TrimSpace, TrimRightSet, TrimSet, TrimPrefix, Split;
  }

  /** Lists that hold everything or nothing, and a packet, of which any given tests hold and no others. */
  lemma FactsOccur(facts: Facts) returns (fetch: Fetch, m: Matcher)
    ensures forall served, t: Test :: ReadsAll(served, fetch, m) ==> Holds(t, FactsOf(served, m)) == Holds(t, facts)
  {
    fetch := url => if facts(List(url)) then "MATCH" else "";
    m := (typ, value, flag) => facts(Key(typ, value, flag));
    CatchAllListMatches(m);
    EmptyListMatchesNothing(m);
    hide ListMatches;
  }

  lemma {:induction false} DecisionDependsOnHolds(cs: seq<Clause>, f: Facts, g: Facts)
    requires forall t: Test :: Holds(t, f) == Holds(t, g)
    ensures Decision(cs, f) == Decision(cs, g)
  {
    hide Holds;
    var i, j := First(cs, f), First(cs, g);
    assert i == j;
  }

  // ---------- main results ----------

  /** How a client reads a provider's list: whether it matches a packet. */
  type Client = (string, Matcher) -> bool

  /** The client reads every list as the converter would. */
  ghost predicate ReadsLists(client: Client) { forall data, m :: client(data, m) == ListMatches(data, m) }

  function Serving(client: Client, fetch: Fetch, m: Matcher): Served { u => client(fetch(u), m) }

  /** The packet m goes elsewhere with providers than with the inlined rules. */
  ghost predicate Reroutes(cfg: Config, client: Client, fetch: Fetch, m: Matcher)
  {
    var served := Serving(client, fetch, m);
    FirstMatch(FormatAll(Collected(cfg, fetch)), map[], served, m) != FirstMatch(BuiltFrom(cfg).rules,
        BuiltFrom(cfg).providers, served, m)
  }

  /** No list contents and no packet for which the two outputs differ. */
  ghost predicate RoutingPreserved(cfg: Config, client: Client)
  {
    forall fetch: Fetch, m: Matcher :: !Reroutes(cfg, client, fetch, m)
  }

  /**
    A condition on the configuration: no inline rule that names a generated provider stands before the
    first catch-all, or all that can still decide from the first such rule to the catch-all goes to
    its group.
   */
  predicate ClashesHarmless(cfg: Config)
  {
    AllClausesSub(cfg, BuiltFrom(cfg).providers);
    Harmless(AllClauses(cfg, map[]), AllClauses(cfg, BuiltFrom(cfg).providers))
  }

  lemma ReroutesIff(cfg: Config, client: Client, fetch: Fetch, m: Matcher)
    requires WellFormed(cfg) && ReadsLists(client)
    ensures var facts := FactsOf(Serving(client, fetch, m), m);
            Reroutes(cfg, client, fetch, m) <==>
            Decision(AllClauses(cfg, map[]), facts) != Decision(AllClauses(cfg, BuiltFrom(cfg).providers), facts)
  {
    hide AllClauses, BuiltFrom, FactsOf, Decision, FirstMatch, Collected, FormatAll, ListMatches, WellFormed;
    var served := Serving(client, fetch, m);
    InlinedAsClauses(cfg, fetch, served, m);
    ProvidersAsClauses(cfg, served, m);
  }

  /**
    For a client that reads lists as the converter does, expand=false sends every packet where
    expand=true does, whatever the lists hold, exactly when the configuration's clashes are harmless.
   */
  lemma ExpandFalsePreservesRouting(cfg: Config, client: Client)
    requires WellFormed(cfg) && ReadsLists(client)
    ensures RoutingPreserved(cfg, client) <==> ClashesHarmless(cfg)
  {
    hide AllClauses, BuiltFrom, FactsOf, Decision, Reroutes, WellFormed, Harmless, SubAll, ListMatches;
    var providers := BuiltFrom(cfg).providers;
    var a, b := AllClauses(cfg, map[]), AllClauses(cfg, providers);
    AllClausesSub(cfg, providers);
    AreTwins(a, providers);
    AgreeIff(a, b);
    if Agree(a, b) {
      forall fetch: Fetch, m: Matcher
        ensures !Reroutes(cfg, client, fetch, m)
      {
        ReroutesIff(cfg, client, fetch, m);
      }
    }
    if RoutingPreserved(cfg, client) {
      forall facts: Facts
        ensures Decision(a, facts) == Decision(b, facts)
      {
        var fetch, m := FactsOccur(facts);
        var served := Serving(client, fetch, m);
        ReroutesIff(cfg, client, fetch, m);
        DecisionDependsOnHolds(a, facts, FactsOf(served, m));
        DecisionDependsOnHolds(b, facts, FactsOf(served, m));
      }
    }
  }

  /** In particular when no inline rule names a generated provider. */
  lemma NoClashPreservesRouting(cfg: Config, client: Client)
    requires WellFormed(cfg) && ReadsLists(client) && NoNameClash(cfg)
    ensures RoutingPreserved(cfg, client)
  {
    var providers := BuiltFrom(cfg).providers;
    NoClashNoSub(cfg.rulesets, providers);
    assert AllClauses(cfg, providers) == AllClauses(cfg, map[]);
    ExpandFalsePreservesRouting(cfg, client);
    hide AllClauses, BuiltFrom, RoutingPreserved, Twins, ReadsLists;
  }

  lemma {:induction false} NoClashNoSub(rulesets: seq<Ruleset>, providers: map<string, Provider>)
    requires forall i :: 0 <= i < |rulesets| && rulesets[i].inline != "" ==>
               var line := ExpandInlineRule(rulesets[i].inline, rulesets[i].group);
               line.Some? ==> !Names(line.value, providers)
    ensures ClausesOf(rulesets, providers) == ClausesOf(rulesets, map[])
  {
    hide ExpandInlineRule, Read;
    if rulesets != [] { NoClashNoSub(rulesets[..|rulesets| - 1], providers); }
  }

  // ---------- what a client owes ----------

  lemma {:induction false} ServedUnused(lines: seq<string>, f: Served, g: Served, m: Matcher)
    ensures FirstMatch(lines, map[], f, m) == FirstMatch(lines, map[], g, m)
  {
    hide Read;
    if lines != [] { ServedUnused(lines[..|lines| - 1], f, g, m); }
  }

  /** One list is enough to tell: its routing is kept exactly by the clients that read lists as the converter does. */
  lemma ClientOwes(group: string, url: string, client: Client)
    requires ',' !in group && url != ""
    ensures RoutingPreserved(Config([Ruleset(group, url, "")], true, false), client) <==> ReadsLists(client)
  {
    hide NoNameClash, WellFormed, Reroutes, ListMatches;
    var rs := Ruleset(group, url, "");
    var cfg := Config([rs], true, false);
    OneListIsPlain(cfg, rs);
    if ReadsLists(client) { NoClashPreservesRouting(cfg, client); }
    if RoutingPreserved(cfg, client) {
      forall data, m
        ensures client(data, m) == ListMatches(data, m)
      {
        OneListRoutes(cfg, rs, client, u => data, m);
        assert !Reroutes(cfg, client, u => data, m);
      }
    }
  }

  lemma OneListIsPlain(cfg: Config, rs: Ruleset)
    requires cfg == Config([rs], true, false) && rs.inline == "" && ',' !in rs.group
    ensures NoNameClash(cfg) && WellFormed(cfg)
  {
    hide BuiltFrom, ExpandInlineRule;
  }

  lemma OneListRoutes(cfg: Config, rs: Ruleset, client: Client, fetch: Fetch, m: Matcher)
    requires cfg == Config([rs], true, false) && rs.inline == "" && rs.url != "" && ',' !in rs.group
    ensures Reroutes(cfg, client, fetch, m) <==> client(fetch(rs.url), m) != ListMatches(fetch(rs.url), m)
  {
    hide ListMatches, FirstMatch, FormatAll, NeutralAll, BuiltFrom, Decision, FactsOf;
    var served, converted := Serving(client, fetch, m), Converted(fetch, m);
    ConvertedReads(fetch, m);
    ServedUnused(FormatAll(Collected(cfg, fetch)), served, converted, m);
    InlinedAsClauses(cfg, fetch, converted, m);
    ProvidersAsClauses(cfg, served, m);
    var c := Clause(List(rs.url), rs.group);
    OneClause(cfg, rs, map[]);
    OneClause(cfg, rs, BuiltFrom(cfg).providers);
    DecisionOfOne(Some(c), FactsOf(served, m));
    DecisionOfOne(Some(c), FactsOf(converted, m));
    FactOfList(rs.url, served, m);
    FactOfList(rs.url, converted, m);
  }

  lemma FactOfList(url: string, served: Served, m: Matcher)
    ensures Holds(List(url), FactsOf(served, m)) == served(url)
  {
  }

  lemma OneClause(cfg: Config, rs: Ruleset, providers: map<string, Provider>)
    requires cfg == Config([rs], true, false) && rs.inline == "" && rs.url != ""
    ensures AllClauses(cfg, providers) == [Clause(List(rs.url), rs.group)]
  {
    assert [rs][..0] == [];
    assert ClausesOf([], providers) == [];
  }

  // ---------- one ruleset at a time ----------

  function Converted(fetch: Fetch, m: Matcher): Served { u => ListMatches(fetch(u), m) }

  /** Taken alone, the ruleset decides the same in both outputs, whatever the lists hold and whatever the packet. */
  ghost predicate SameMeaning(rs: Ruleset, providers: map<string, Provider>)
  {
    forall fetch: Fetch, m: Matcher ::
      InlinedDecides(rs, fetch, Converted(fetch, m), m) == RulesetDecides(rs, providers, Converted(fetch, m), m)
  }

  /** Each ruleset taken alone means the same in both outputs exactly when no inline rule names a generated provider. */
  lemma RulesetsAgreeIff(cfg: Config)
    requires WellFormed(cfg)
    ensures NoNameClash(cfg) <==> forall i :: 0 <= i < |cfg.rulesets| ==>
            SameMeaning(cfg.rulesets[i], BuiltFrom(cfg).providers)
  {
    var providers := BuiltFrom(cfg).providers;
    forall i | 0 <= i < |cfg.rulesets|
      ensures SameMeaning(cfg.rulesets[i], providers) <==> !NamesProvider(cfg.rulesets[i], providers)
    {
      SameMeaningIff(cfg.rulesets[i], providers);
    }
    hide Names, BuiltFrom, SameMeaning, ExpandInlineRule;
  }

  predicate NamesProvider(rs: Ruleset, providers: map<string, Provider>)
  {
    rs.inline != "" && var line := ExpandInlineRule(rs.inline, rs.group); line.Some? && Names(line.value, providers)
  }

  lemma SameMeaningIff(rs: Ruleset, providers: map<string, Provider>)
    requires ',' !in rs.group
    ensures SameMeaning(rs, providers) <==> !NamesProvider(rs, providers)
  {
    hide NamesProvider, InlinedDecides, RulesetDecides, RulesetClause, Decides, FactsOf, Converted;
    ClauseChangesIff(rs, providers);
    forall fetch: Fetch, m: Matcher
      ensures var served := Converted(fetch, m);
              && InlinedDecides(rs, fetch, served, m) == Decides(RulesetClause(rs, map[]), FactsOf(served, m))
              && RulesetDecides(rs, providers, served, m) == Decides(RulesetClause(rs, providers), FactsOf(served, m))
    {
      var served := Converted(fetch, m);
      ConvertedReads(fetch, m);
      InlinedRuleset(rs, fetch, served, m);
      RulesetDecidesAsClause(rs, map[], served, m);
      RulesetDecidesAsClause(rs, providers, served, m);
    }
    if NamesProvider(rs, providers) {
      var t := RulesetClause(rs, map[]).value.test;
      var fetch, m := FactsOccur(These(t, t));
      ConvertedReads(fetch, m);
      ClashTells(rs, providers, FactsOf(Converted(fetch, m), m));
      assert InlinedDecides(rs, fetch, Converted(fetch, m), m) != RulesetDecides(rs, providers, Converted(fetch, m), m);
    }
  }

  lemma ConvertedReads(fetch: Fetch, m: Matcher)
    ensures ReadsAll(Converted(fetch, m), fetch, m)
  {
  }

  lemma ClauseChangesIff(rs: Ruleset, providers: map<string, Provider>)
    ensures if NamesProvider(rs, providers)
            then && RulesetClause(rs, map[]).Some? && RulesetClause(rs, providers).Some?
                 && RulesetClause(rs, map[]).value.test.Key? && RulesetClause(rs, providers).value.test.List?
            else RulesetClause(rs, map[]) == RulesetClause(rs, providers)
  {
    hide ExpandInlineRule, Split;
  }

  lemma ClashTells(rs: Ruleset, providers: map<string, Provider>, facts: Facts)
    requires var c, d := RulesetClause(rs, map[]), RulesetClause(rs, providers);
             && c.Some? && d.Some? && c.value.test.Key? && d.value.test.List?
             && forall t: Test :: Holds(t, facts) == Holds(t, These(c.value.test, c.value.test))
    ensures Decides(RulesetClause(rs, map[]), facts).Some? && Decides(RulesetClause(rs, providers), facts).None?
  {
    hide RulesetClause;
    assert Holds(RulesetClause(rs, map[]).value.test, facts);
    assert !Holds(RulesetClause(rs, providers).value.test, facts);
  }

  // ---------- clashes that reroute, and clashes that do not ----------

  /** The inline rule RULE-SET,provider_1 of group A, before or beside the list at u. */
  function Clashing(): Ruleset { Ruleset("A", "", "RULE-SET," + ProviderName(1)) }

  /** An inline RULE-SET,provider_1 beside one list is rerouted by expand=false. */
  lemma NameClashReroutes(client: Client) returns (cfg: Config)
    requires ReadsLists(client)
    ensures WellFormed(cfg) && !RoutingPreserved(cfg, client)
  {
    var listed := Ruleset("B", "u", "");
    cfg := Config([Clashing(), listed], true, false);
    hide BuiltFrom, AllClauses, RulesetClause, ProviderName, ReadsLists, RoutingPreserved, Harmless;
    var providers := BuiltFrom(cfg).providers;
    AllClausesSub(cfg, providers);
    ClashingProviders([Clashing(), listed]);
    ClashingClause(providers);
    ListedClause(listed, map[]);
    TwoClauses(cfg, map[]);
    TwoRerouted(AllClauses(cfg, map[]), AllClauses(cfg, providers), providers);
    ExpandFalsePreservesRouting(cfg, client);
  }

  lemma TwoRerouted(a: seq<Clause>, b: seq<Clause>, providers: map<string, Provider>)
    requires |a| == 2 && a[0].test.Key? && Sub(a[0].test, providers) != a[0].test && a[1].test.List?
            && b == SubAll(a, providers)
    ensures !Harmless(a, b)
  {
    hide Sub;
    assert b[0].test != a[0].test;
    assert FirstClash(a, b) == 0;
    assert FirstAll(a) == 2;
  }

  /** The same clash is harmless when the list and a catch-all after it go to the inline rule's group. */
  lemma ClashMayBeHarmless(client: Client) returns (cfg: Config)
    requires ReadsLists(client)
    ensures WellFormed(cfg) && !NoNameClash(cfg) && RoutingPreserved(cfg, client)
  {
    var listed, final := Ruleset("A", "u", ""), Ruleset("A", "", "FINAL");
    cfg := Config([Clashing(), listed, final], true, false);
    hide BuiltFrom, AllClauses, RulesetClause, ProviderName, ReadsLists, RoutingPreserved, Harmless, NamesProvider;
    var providers := BuiltFrom(cfg).providers;
    AllClausesSub(cfg, providers);
    ClashingProviders([Clashing(), listed, final]);
    ClashingClause(providers);
    ListedClause(listed, map[]);
    FinalClause(map[]);
    ThreeClauses(cfg, map[]);
    OneGroupIsHarmless(AllClauses(cfg, map[]), AllClauses(cfg, providers), 2);
    ExpandFalsePreservesRouting(cfg, client);
    ClauseChangesIff(Clashing(), providers);
    NamesOne(cfg);
  }

  /** Clashes cannot matter when everything goes to one group. */
  lemma OneGroupIsHarmless(a: seq<Clause>, b: seq<Clause>, k: nat)
    requires |a| == |b| && k < |a| && a[k].test == All && forall i :: 0 <= i < |a| ==> a[i].group == a[k].group
    ensures Harmless(a, b)
  {
  }

  lemma NamesOne(cfg: Config)
    requires cfg.rulesets != [] && NamesProvider(cfg.rulesets[0], BuiltFrom(cfg).providers)
    ensures !NoNameClash(cfg)
  {
    hide ExpandInlineRule, Names, BuiltFrom;
  }

  lemma TwoClauses(cfg: Config, providers: map<string, Provider>)
    requires |cfg.rulesets| == 2 && cfg.enableRuleGenerator && !cfg.tailscale
    ensures AllClauses(cfg, providers) == ListOf(RulesetClause(cfg.rulesets[0], providers))
            + ListOf(RulesetClause(cfg.rulesets[1], providers))
  {
    hide RulesetClause, ListOf;
    var rs := cfg.rulesets;
    assert rs[..1][..0] == [];
    assert ClausesOf([], providers) == [];
    assert ClausesOf(rs[..1], providers) == [] + ListOf(RulesetClause(rs[0], providers));
    assert ClausesOf(rs, providers) == ClausesOf(rs[..1], providers) + ListOf(RulesetClause(rs[1], providers));
  }

  lemma ThreeClauses(cfg: Config, providers: map<string, Provider>)
    requires |cfg.rulesets| == 3 && cfg.enableRuleGenerator && !cfg.tailscale
    ensures AllClauses(cfg, providers) == ListOf(RulesetClause(cfg.rulesets[0], providers))
      + ListOf(RulesetClause(cfg.rulesets[1], providers)) + ListOf(RulesetClause(cfg.rulesets[2], providers))
  {
    TwoClauses(cfg.(rulesets := cfg.rulesets[..2]), providers);
    hide RulesetClause;
  }

  lemma ListedClause(rs: Ruleset, providers: map<string, Provider>)
    requires rs.inline == "" && rs.url != ""
    ensures RulesetClause(rs, providers) == Some(Clause(List(rs.url), rs.group))
  {
  }

  lemma FinalClause(providers: map<string, Provider>)
    ensures RulesetClause(Ruleset("A", "", "FINAL"), providers) == Some(Clause(All, "A"))
  {
    ReadMatch("A");
    assert "MATCH," + "A" == "MATCH,A";
    hide Read;
    assert Rule("MATCH", "", "A", "").IsMatch();
  }

  lemma ClashingClause(providers: map<string, Provider>)
    requires ProviderName(1) in providers
    ensures RulesetClause(Clashing(), map[]) == Some(Clause(Key("RULE-SET", ProviderName(1), ""), "A"))
    ensures Sub(Key("RULE-SET", ProviderName(1), ""), providers).List?
    ensures RulesetClause(Clashing(), providers) ==
            Some(Clause(Sub(Key("RULE-SET", ProviderName(1), ""), providers), "A"))
  {
    hide ExpandInlineRule, Read, ProviderName;
    ProviderNamePlain(1);
    ClashingInline(ProviderName(1));
  }

  lemma ClashingInline(name: string)
    requires ',' !in name
    ensures var line := ExpandInlineRule("RULE-SET," + name, "A");
            line.Some? && Read(line.value) == FromProvider(name, "", "A")
  {
    hide Read, ParseInlineRule, FormatClashRule;
    var r := Rule("RULE-SET", name, "A", "");
    ClashingParse(name);
    ClashingFormat(name);
    ReadJoined("RULE-SET", r);
  }

  lemma ClashingParse(name: string)
    ensures ParseInlineRule("RULE-SET," + name, "A") == Some(Rule("RULE-SET", name, "A", ""))
  {
    hide Cut;
    CutAt("RULE-SET", ',', name);
    assert "RULE-SET" + [','] + name == "RULE-SET," + name;
  }

  lemma ClashingFormat(name: string)
    ensures FormatClashRule(Rule("RULE-SET", name, "A", "")) == Some("RULE-SET" + "," + name + "," + "A" + "")
  {
    GraphIsTrimmed("RULE-SET");
    assert ToUpper("RULE-SET") == "RULE-SET";
    assert |ToLower("RULE-SET")| == 8;
    hide TrimSpace, ToUpper, ToLower;
  }

  /** The first list is given the name provider_1, whatever follows. */
  lemma {:induction false} ClashingProviders(rulesets: seq<Ruleset>)
    requires |rulesets| >= 2 && rulesets[0] == Clashing() && rulesets[1].inline == "" && rulesets[1].url == "u"
    ensures ProviderName(1) in BuiltFrom(Config(rulesets, true, false)).providers
  {
    hide ExpandInlineRule, FormatAll, ProviderName, Consistent;
    var b := Begun(Config(rulesets, true, false));
    if |rulesets| == 2 {
      assert rulesets == [Clashing(), rulesets[1]];
      var b1 := Extend(b, Clashing());
      assert rulesets[..1] == [Clashing()] && [Clashing()][..0] == [];
      assert ExtendAll(b, [Clashing()]) == b1;
      assert ExtendAll(b, rulesets) == Extend(b1, rulesets[1]);
      hide ExtendAll;
      assert b1.byUrl == map[];
    } else {
      var n := |rulesets| - 1;
      ClashingProviders(rulesets[..n]);
      BegunIsConsistent(Config(rulesets, true, false));
      ExtendAllKeeps(b, rulesets[..n]);
      ExtendKeeps(ExtendAll(b, rulesets[..n]), rulesets[n]);
      hide Extend;
    }
  }
}
