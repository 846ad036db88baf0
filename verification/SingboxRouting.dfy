/**
  Route rules of the sing-box target (internal/generator/singbox.go, GenerateSingbox and
  singboxRouteRule): neutral rules become JSON rules in order, catch-alls become `final`.

  A packet is whether it is DNS and which facts it shows. What a neutral rule asks of a packet and what a
  sing-box field asks of one are two readings, written down apart from each other.
 */
module SingboxRouting {
  import opened Wrappers
  import opened Text
  import opened Decimal
  import opened Rules

  datatype Scalar = Word(s: string) | Number(n: int)

  datatype Key = Key(field: string, value: Scalar)

  datatype Route = Dns | Route(key: Key, outbound: string)

  /** What may be so of a packet. */
  datatype Fact =
    | HostIs(name: string)
    | HostUnder(suffix: string)      // the domain itself or one below it
    | HostHas(word: string)
    | HostFits(pattern: string)
    | InGeosite(list: string)
    | InGeoip(code: string)
    | DestIn(block: string)
    | SourceIn(block: string)
    | DestPort(port: int)
    | SourcePort(port: int)
    | InAsn(asn: int)
    | ByProcess(process: string)

  datatype Packet = Packet(dns: bool, shows: Fact -> bool)

  datatype Tags = Tags(emitted: set<string>, groups: set<string>)

  // ---------- what is emitted ----------

  function OutboundRef(m: string, tags: Tags): string
  {
    if m == "DIRECT" then "direct"
    else if m == "REJECT" || m == "REJECT-DROP" then "block"
    else if m in tags.groups || m in tags.emitted then m
    else m
  }

  const RULE_FIELDS: map<string, string> := map[
    "DOMAIN" := "domain", "DOMAIN-SUFFIX" := "domain_suffix", "DOMAIN-KEYWORD" := "domain_keyword",
    "DOMAIN-REGEX" := "domain_regex", "GEOSITE" := "geosite", "GEOIP" := "geoip",
    "IP-CIDR" := "ip_cidr", "IP-CIDR6" := "ip_cidr", "SRC-IP-CIDR" := "source_ip_cidr",
    "DST-PORT" := "port", "SRC-PORT" := "source_port", "IP-ASN" := "ip_asn",
    "PROCESS-NAME" := "process_name"]

  /** The condition sing-box gets for a rule, when it has one. */
  function Express(r: Rule): Option<Key>
  {
    var canon := NormalizeRuleType(r.typ);
    if canon !in RULE_FIELDS then None
    else
      var field := RULE_FIELDS[canon];
      if field == "port" || field == "source_port" || field == "ip_asn" then
        if Atoi(r.value).ok then Some(Key(field, Number(Atoi(r.value).value))) else None
      else if field == "geoip" || field == "geosite" then Some(Key(field, Word(ToLower(r.value))))
      else Some(Key(field, Word(r.value)))
  }

  function RoutesOf(rules: seq<Rule>, tags: Tags): seq<Route>
  {
    if rules == [] then [Dns] else
    var n := |rules| - 1;
    var key := Express(rules[n]);
    RoutesOf(rules[..n], tags) +
      (if !rules[n].IsMatch() && key.Some? then [Route(key.value, OutboundRef(rules[n].group, tags))] else [])
  }

  function FinalOf(rules: seq<Rule>, tags: Tags): string
  {
    if rules == [] then "direct" else
    var n := |rules| - 1;
    if rules[n].IsMatch() then OutboundRef(rules[n].group, tags) else FinalOf(rules[..n], tags)
  }

  function SkipsOf(rules: seq<Rule>): seq<string>
  {
    if rules == [] then [] else
    var n := |rules| - 1;
    SkipsOf(rules[..n]) + (if !rules[n].IsMatch() && Express(rules[n]).None? then [rules[n].typ + "," + rules[n].value]
        else [])
  }

  /** singboxRouteRule: the rule object, or none for a rule sing-box has no field for. */
  method RouteRule(r: Rule, tags: Tags) returns (route: Option<Route>)
    ensures route == if Express(r).Some? then Some(Route(Express(r).value, OutboundRef(r.group, tags))) else None
  {
    hide Atoi, NormalizeRuleType, ToLower, OutboundRef;
    var canon := NormalizeRuleType(r.typ);
    if canon !in RULE_FIELDS {
      return None;
    }
    var field := RULE_FIELDS[canon];
    var outbound := OutboundRef(r.group, tags);
    match field {
      case "port" =>
        var p := Atoi(r.value);
        if !p.ok { return None; }
        route := Some(Route(Key(field, Number(p.value)), outbound));
      case "source_port" =>
        var p := Atoi(r.value);
        if !p.ok { return None; }
        route := Some(Route(Key(field, Number(p.value)), outbound));
      case "ip_asn" =>
        var asn := Atoi(r.value);
        if !asn.ok { return None; }
        route := Some(Route(Key(field, Number(asn.value)), outbound));
      case "geoip" => route := Some(Route(Key(field, Word(ToLower(r.value))), outbound));
      case "geosite" => route := Some(Route(Key(field, Word(ToLower(r.value))), outbound));
      case _ => route := Some(Route(Key(field, Word(r.value)), outbound));
    }
  }

  method RouteRules(neutral: seq<Rule>, unread: seq<string>, tags: Tags)
    returns (routes: seq<Route>, final: string, skipped: seq<string>)
    ensures routes == RoutesOf(neutral, tags) && final == FinalOf(neutral, tags) && skipped == unread + SkipsOf(neutral)
  {
    hide Express, OutboundRef;
    skipped := unread;
    routes := [Dns];
    final := "direct";
    for i := 0 to |neutral|
      invariant routes == RoutesOf(neutral[..i], tags) && final == FinalOf(neutral[..i], tags)
      invariant skipped == unread + SkipsOf(neutral[..i])
    {
      assert neutral[..i + 1][..i] == neutral[..i];
      var r := neutral[i];
      if r.IsMatch() {
        final := OutboundRef(r.group, tags);
        continue;
      }
      var rule := RouteRule(r, tags);
      if rule.Some? {
        routes := routes + [rule.value];
      } else {
        skipped := skipped + [r.typ + "," + r.value];
      }
    }
    assert neutral[..|neutral|] == neutral;
  }

  // ---------- what rules ask ----------

  function NumberFact(value: string, fact: int -> Fact): Option<Fact>
  {
    if Atoi(value).ok then Some(fact(Atoi(value).value)) else None
  }

  /** What a neutral rule asks of a packet, by the names Clash and Quantumult give the types. */
  function Asks(r: Rule): Option<Fact>
  {
    match ToUpper(TrimSpace(r.typ))
    case "DOMAIN" => Some(HostIs(r.value))
    case "HOST" => Some(HostIs(r.value))
    case "DOMAIN-SUFFIX" => Some(HostUnder(r.value))
    case "HOST-SUFFIX" => Some(HostUnder(r.value))
    case "HOST-WILDCARD" => Some(HostUnder(r.value))
    case "DOMAIN-KEYWORD" => Some(HostHas(r.value))
    case "HOST-KEYWORD" => Some(HostHas(r.value))
    case "DOMAIN-REGEX" => Some(HostFits(r.value))
    case "GEOSITE" => Some(InGeosite(ToLower(r.value)))
    case "GEOIP" => Some(InGeoip(ToLower(r.value)))
    case "IP-CIDR" => Some(DestIn(r.value))
    case "IP-CIDR6" => Some(DestIn(r.value))
    case "IP6-CIDR" => Some(DestIn(r.value))
    case "SRC-IP-CIDR" => Some(SourceIn(r.value))
    case "DST-PORT" => NumberFact(r.value, n => DestPort(n))
    case "DEST-PORT" => NumberFact(r.value, n => DestPort(n))
    case "SRC-PORT" => NumberFact(r.value, n => SourcePort(n))
    case "IP-ASN" => NumberFact(r.value, n => InAsn(n))
    case "PROCESS-NAME" => Some(ByProcess(r.value))
    case _ => None
  }

  /** What a field of a sing-box route rule asks, by sing-box's own names. */
  function FieldAsks(key: Key): Option<Fact>
  {
    match key
    case Key("domain", Word(s)) => Some(HostIs(s))
    case Key("domain_suffix", Word(s)) => Some(HostUnder(s))
    case Key("domain_keyword", Word(s)) => Some(HostHas(s))
    case Key("domain_regex", Word(s)) => Some(HostFits(s))
    case Key("geosite", Word(s)) => Some(InGeosite(s))
    case Key("geoip", Word(s)) => Some(InGeoip(s))
    case Key("ip_cidr", Word(s)) => Some(DestIn(s))
    case Key("source_ip_cidr", Word(s)) => Some(SourceIn(s))
    case Key("port", Number(n)) => Some(DestPort(n))
    case Key("source_port", Number(n)) => Some(SourcePort(n))
    case Key("ip_asn", Number(n)) => Some(InAsn(n))
    case Key("process_name", Word(s)) => Some(ByProcess(s))
    case _ => None
  }

  /** The object emitted for a rule asks what the rule asks; exactly the rules that ask something get one. */
  lemma RuleMeans(r: Rule)
    ensures Express(r).Some? <==> Asks(r).Some?
    ensures Express(r).Some? ==> FieldAsks(Express(r).value) == Asks(r)
  {
    AliasAsks(r);
    CanonMeans(r);
    hide Express, Asks, FieldAsks, CanonAsks, NormalizeRuleType;
  }

  /** What a rule of a normalised type asks. */
  function CanonAsks(canon: string, value: string): Option<Fact>
  {
    match canon
    case "DOMAIN" => Some(HostIs(value))
    case "DOMAIN-SUFFIX" => Some(HostUnder(value))
    case "DOMAIN-KEYWORD" => Some(HostHas(value))
    case "DOMAIN-REGEX" => Some(HostFits(value))
    case "GEOSITE" => Some(InGeosite(ToLower(value)))
    case "GEOIP" => Some(InGeoip(ToLower(value)))
    case "IP-CIDR" => Some(DestIn(value))
    case "IP-CIDR6" => Some(DestIn(value))
    case "SRC-IP-CIDR" => Some(SourceIn(value))
    case "DST-PORT" => NumberFact(value, n => DestPort(n))
    case "SRC-PORT" => NumberFact(value, n => SourcePort(n))
    case "IP-ASN" => NumberFact(value, n => InAsn(n))
    case "PROCESS-NAME" => Some(ByProcess(value))
    case _ => None
  }

  lemma CanonMeans(r: Rule)
    ensures var asks := CanonAsks(NormalizeRuleType(r.typ), r.value);
            && (Express(r).Some? <==> asks.Some?)
            && (Express(r).Some? ==> FieldAsks(Express(r).value) == asks)
  {
    hide NormalizeRuleType, ToLower, Atoi;
  }

  lemma AliasAsks(r: Rule)
    ensures Asks(r) == CanonAsks(NormalizeRuleType(r.typ), r.value)
  {
    hide TrimSpace, ToUpper, ToLower, Atoi, NumberFact;
  }

  // ---------- what a packet gets ----------

  predicate Applies(route: Route, p: Packet)
  {
    match route
    case Dns => p.dns
    case Route(key, _) => FieldAsks(key).Some? && p.shows(FieldAsks(key).value)
  }

  /** sing-box takes the first rule that applies, else `final`. */
  function Routed(routes: seq<Route>, final: string, p: Packet): string
  {
    if routes == [] then final
    else if Applies(routes[0], p) then (match routes[0] case Dns => "dns-out" case Route(_, outbound) => outbound)
    else Routed(routes[1..], final, p)
  }

  /** A rule that can decide a packet before any catch-all does. */
  predicate Hits(r: Rule, p: Packet) { !r.IsMatch() && Asks(r).Some? && p.shows(Asks(r).value) }

  /** First match over the neutral rules, as they read; direct when nothing matches. */
  function NeutralRouted(rules: seq<Rule>, tags: Tags, p: Packet): string
  {
    if rules == [] then "direct"
    else if rules[0].IsMatch() || Hits(rules[0], p) then OutboundRef(rules[0].group, tags)
    else NeutralRouted(rules[1..], tags, p)
  }

  function SingboxRouted(rules: seq<Rule>, tags: Tags, p: Packet): string
  {
    Routed(RoutesOf(rules, tags), FinalOf(rules, tags), p)
  }

  // ---------- positions ----------

  function FirstHit(rules: seq<Rule>, p: Packet): (i: nat)
    ensures i <= |rules|
    ensures i < |rules| ==> Hits(rules[i], p)
    ensures forall j :: 0 <= j < i ==> !Hits(rules[j], p)
  {
    if rules == [] || Hits(rules[0], p) then 0
    else
      var i := FirstHit(rules[1..], p);
      assert forall j :: 1 <= j < i + 1 ==> rules[j] == rules[1..][j - 1];
      i + 1
  }

  function FirstCatchAll(rules: seq<Rule>): (i: nat)
    ensures i <= |rules|
    ensures i < |rules| ==> rules[i].IsMatch()
    ensures forall j :: 0 <= j < i ==> !rules[j].IsMatch()
  {
    if rules == [] || rules[0].IsMatch() then 0
    else
      var i := FirstCatchAll(rules[1..]);
      assert forall j :: 1 <= j < i + 1 ==> rules[j] == rules[1..][j - 1];
      i + 1
  }

  /** The outbound of rule i, direct past the end. */
  function OutboundAt(rules: seq<Rule>, i: nat, tags: Tags): string
  {
    if i < |rules| then OutboundRef(rules[i].group, tags) else "direct"
  }

  lemma {:induction false} NeutralTakesFirst(rules: seq<Rule>, tags: Tags, p: Packet)
    ensures NeutralRouted(rules, tags, p) ==
            OutboundAt(rules, if FirstHit(rules, p) < FirstCatchAll(rules) then FirstHit(rules, p)
                else FirstCatchAll(rules), tags)
  {
    hide Hits, OutboundRef, Rule.IsMatch;
    if rules != [] { NeutralTakesFirst(rules[1..], tags, p); }
  }

  lemma {:induction false} RoutedConcat(a: seq<Route>, b: seq<Route>, final: string, p: Packet)
    ensures Routed(a + b, final, p) == Routed(a, Routed(b, final, p), p)
  {
    hide Applies;
    if a == [] {
      assert a + b == b;
    } else {
      RoutedConcat(a[1..], b, final, p);
      assert (a + b)[1..] == a[1..] + b;
    }
  }

  /** The emitted rules, alone, take the first expressible hit wherever it stands. */
  lemma {:induction false} RoutesTakeFirstHit(rules: seq<Rule>, tags: Tags, final: string, p: Packet)
    requires !p.dns
    ensures Routed(RoutesOf(rules, tags), final, p)
         == if FirstHit(rules, p) < |rules| then OutboundRef(rules[FirstHit(rules, p)].group, tags) else final
  {
    if rules != [] {
      var n := |rules| - 1;
      RoutesSplit(rules, tags);
      LastRuleRoutes(rules[n], tags, final, p);
      FirstHitSnoc(rules, p);
      hide *;
      RoutesTakeFirstHit(rules[..n], tags, Routed(RoutesOfOne(rules[n], tags), final, p), p);
      RoutedConcat(RoutesOf(rules[..n], tags), RoutesOfOne(rules[n], tags), final, p);
    }
  }

  function RoutesOfOne(r: Rule, tags: Tags): seq<Route>
  {
    if !r.IsMatch() && Express(r).Some? then [Route(Express(r).value, OutboundRef(r.group, tags))] else []
  }

  lemma RoutesSplit(rules: seq<Rule>, tags: Tags)
    requires rules != []
    ensures var n := |rules| - 1; RoutesOf(rules, tags) == RoutesOf(rules[..n], tags) + RoutesOfOne(rules[n], tags)
  {
    hide Express, OutboundRef, Rule.IsMatch;
  }

  lemma LastRuleRoutes(r: Rule, tags: Tags, final: string, p: Packet)
    ensures Routed(RoutesOfOne(r, tags), final, p) == if Hits(r, p) then OutboundRef(r.group, tags) else final
  {
    RuleMeans(r);
    hide Express, Asks, FieldAsks, OutboundRef, Rule.IsMatch;
    assert RoutesOfOne(r, tags) == [] || RoutesOfOne(r, tags)[1..] == [];
  }

  lemma FirstHitSnoc(rules: seq<Rule>, p: Packet)
    requires rules != []
    ensures var n := |rules| - 1;
            var i := FirstHit(rules[..n], p);
            FirstHit(rules, p) == if i < n then i else if Hits(rules[n], p) then n else n + 1
  {
    hide Hits;
    var n := |rules| - 1;
    var i, j := FirstHit(rules[..n], p), FirstHit(rules, p);
    assert forall k :: 0 <= k < n ==> rules[..n][k] == rules[k];
    assert i < n ==> Hits(rules[i], p);
    assert j < n ==> Hits(rules[..n][j], p);
  }

  predicate IsLastCatchAll(rules: seq<Rule>, k: int)
  {
    0 <= k < |rules| && rules[k].IsMatch() && forall j :: k < j < |rules| ==> !rules[j].IsMatch()
  }

  lemma {:induction false} FinalIsLast(rules: seq<Rule>, tags: Tags, k: nat)
    requires IsLastCatchAll(rules, k)
    ensures FinalOf(rules, tags) == OutboundRef(rules[k].group, tags)
  {
    hide OutboundRef, Rule.IsMatch;
    if k < |rules| - 1 { FinalIsLast(rules[..|rules| - 1], tags, k); }
  }

  lemma {:induction false} FinalIsDirect(rules: seq<Rule>, tags: Tags)
    requires forall j :: 0 <= j < |rules| ==> !rules[j].IsMatch()
    ensures FinalOf(rules, tags) == "direct"
  {
    hide Rule.IsMatch;
    if rules != [] { FinalIsDirect(rules[..|rules| - 1], tags); }
  }

  // ---------- main results ----------

  lemma {:induction false} RoutesBeginWithDns(rules: seq<Rule>, tags: Tags)
    ensures RoutesOf(rules, tags) != [] && RoutesOf(rules, tags)[0] == Dns
  {
    if rules != [] { RoutesBeginWithDns(rules[..|rules| - 1], tags); }
    hide Express;
  }

  lemma DnsGoesToDns(rules: seq<Rule>, tags: Tags, p: Packet)
    requires p.dns
    ensures SingboxRouted(rules, tags, p) == "dns-out"
  {
    RoutesBeginWithDns(rules, tags);
  }

  /**
    What the emitted configuration does with any non-DNS packet and any rule list: the first
    expressible rule that matches decides, even past a catch-all, then the last catch-all, then direct.
   */
  lemma SingboxSemantics(rules: seq<Rule>, tags: Tags, p: Packet)
    requires !p.dns
    ensures FirstHit(rules, p) < |rules| ==>
      SingboxRouted(rules, tags, p) == OutboundRef(rules[FirstHit(rules, p)].group, tags)
    ensures forall k :: FirstHit(rules, p) == |rules| && IsLastCatchAll(rules, k) ==>
              SingboxRouted(rules, tags, p) == OutboundRef(rules[k].group, tags)
    ensures FirstHit(rules, p) == |rules| == FirstCatchAll(rules) ==> SingboxRouted(rules, tags, p) == "direct"
  {
    RoutesTakeFirstHit(rules, tags, FinalOf(rules, tags), p);
    hide Routed, RoutesOf, Hits, OutboundRef;
    forall k | IsLastCatchAll(rules, k)
      ensures FinalOf(rules, tags) == OutboundRef(rules[k].group, tags)
    {
      FinalIsLast(rules, tags, k);
    }
    if FirstCatchAll(rules) == |rules| { FinalIsDirect(rules, tags); }
  }

  /** No earlier rule asks what rule j asks. */
  predicate Fresh(rules: seq<Rule>, j: nat)
    requires j < |rules|
  {
    && !rules[j].IsMatch() && Asks(rules[j]).Some?
    && forall i :: 0 <= i < j && !rules[i].IsMatch() ==> Asks(rules[i]) != Asks(rules[j])
  }

  /** Whatever comes after the first catch-all would send its packets where that catch-all does. */
  predicate TailAgrees(rules: seq<Rule>, tags: Tags)
  {
    var k := FirstCatchAll(rules);
    k < |rules| ==>
      var caught := OutboundRef(rules[k].group, tags);
      && FinalOf(rules, tags) == caught
      && forall j :: k < j < |rules| && Fresh(rules, j) ==> OutboundRef(rules[j].group, tags) == caught
  }

  ghost predicate Preserves(rules: seq<Rule>, tags: Tags)
  {
    forall p: Packet :: !p.dns ==> SingboxRouted(rules, tags, p) == NeutralRouted(rules, tags, p)
  }

  lemma TailAgreesSuffices(rules: seq<Rule>, tags: Tags, p: Packet)
    requires TailAgrees(rules, tags) && !p.dns
    ensures SingboxRouted(rules, tags, p) == NeutralRouted(rules, tags, p)
  {
    NeutralTakesFirst(rules, tags, p);
    RoutesTakeFirstHit(rules, tags, FinalOf(rules, tags), p);
    var h, k := FirstHit(rules, p), FirstCatchAll(rules);
    if k == |rules| { FinalIsDirect(rules, tags); }
    assert h < |rules| ==> h != k;
    if k < h < |rules| {
      assert Fresh(rules, h) by {
        forall i | 0 <= i < h && !rules[i].IsMatch()
          ensures Asks(rules[i]) != Asks(rules[h])
        {
          assert !Hits(rules[i], p);
        }
      }
    }
    hide Routed, RoutesOf, NeutralRouted, Fresh, Asks, OutboundRef, FinalOf, Rule.IsMatch;
  }

  function Only(f: Fact): Packet { Packet(false, fact => fact == f) }

  function Nothing(): Packet { Packet(false, fact => false) }

  lemma MeetsOnly(rules: seq<Rule>, j: nat)
    requires j < |rules| && Fresh(rules, j)
    ensures FirstHit(rules, Only(Asks(rules[j]).value)) == j
  {
    hide Asks, Rule.IsMatch;
    var p := Only(Asks(rules[j]).value);
    assert forall fact :: p.shows(fact) <==> fact == Asks(rules[j]).value;
    hide Only;
    assert Hits(rules[j], p);
    assert forall i :: 0 <= i < j ==> !Hits(rules[i], p);
  }

  lemma FreshAsks(rules: seq<Rule>, j: nat)
    requires j < |rules| && Fresh(rules, j)
    ensures Asks(rules[j]).Some?
  {
  }

  lemma OnlyIsPlain(f: Fact)
    ensures !Only(f).dns
  {
  }

  lemma PreservesNeedsTail(rules: seq<Rule>, tags: Tags)
    requires Preserves(rules, tags)
    ensures TailAgrees(rules, tags)
  {
    hide Routed, RoutesOf, NeutralRouted, Fresh, Asks, OutboundRef, FinalOf, Rule.IsMatch, Only;
    var k := FirstCatchAll(rules);
    if k < |rules| {
      var none := Nothing();
      NeutralTakesFirst(rules, tags, none);
      RoutesTakeFirstHit(rules, tags, FinalOf(rules, tags), none);
      assert FirstHit(rules, none) == |rules|;
      hide Hits, Nothing;
      assert SingboxRouted(rules, tags, none) == NeutralRouted(rules, tags, none);
      forall j | k < j < |rules| && Fresh(rules, j)
        ensures OutboundRef(rules[j].group, tags) == OutboundRef(rules[k].group, tags)
      {
        FreshAsks(rules, j);
        var p := Only(Asks(rules[j]).value);
        OnlyIsPlain(Asks(rules[j]).value);
        MeetsOnly(rules, j);
        NeutralTakesFirst(rules, tags, p);
        RoutesTakeFirstHit(rules, tags, FinalOf(rules, tags), p);
        assert SingboxRouted(rules, tags, p) == NeutralRouted(rules, tags, p);
      }
    }
  }

  /**
    Every non-DNS packet goes where the neutral rules sing-box can express send it, exactly when what
    follows the first catch-all goes where that catch-all does.
   */
  lemma RoutingPreservedIff(rules: seq<Rule>, tags: Tags)
    ensures Preserves(rules, tags) <==> TailAgrees(rules, tags)
  {
    if TailAgrees(rules, tags) {
      forall p: Packet | !p.dns
        ensures SingboxRouted(rules, tags, p) == NeutralRouted(rules, tags, p)
      {
        TailAgreesSuffices(rules, tags, p);
      }
    }
    if Preserves(rules, tags) { PreservesNeedsTail(rules, tags); }
    hide TailAgrees, SingboxRouted, NeutralRouted;
  }

  /** In particular when no rule follows a catch-all. */
  lemma CatchAllLastPreserves(rules: seq<Rule>, tags: Tags)
    requires FirstCatchAll(rules) >= |rules| - 1
    ensures Preserves(rules, tags)
  {
    var k := FirstCatchAll(rules);
    if k < |rules| { FinalIsLast(rules, tags, k); }
    assert TailAgrees(rules, tags);
    RoutingPreservedIff(rules, tags);
    hide Preserves, TailAgrees;
  }

  /** MATCH to A, then DOMAIN,x to B: sing-box still sends x to B. */
  lemma RuleAfterCatchAllReroutes(tags: Tags)
    ensures !Preserves([Rule("MATCH", "", "A", ""), Rule("DOMAIN", "x", "B", "")], tags)
  {
    var rules := [Rule("MATCH", "", "A", ""), Rule("DOMAIN", "x", "B", "")];
    GraphIsTrimmed("DOMAIN");
    assert ToUpper("DOMAIN") == "DOMAIN";
    assert |ToLower("DOMAIN")| == 6;
    hide TrimSpace, ToUpper;
    assert !rules[1].IsMatch();
    assert Asks(rules[1]) == Some(HostIs("x"));
    assert Fresh(rules, 1);
    assert FirstCatchAll(rules) == 0;
    RoutingPreservedIff(rules, tags);
    hide Preserves, Fresh, Asks;
    assert OutboundRef("A", tags) == "A" && OutboundRef("B", tags) == "B";
  }

  /** By which outbound packets leave: direct and block for the built-in policies, the group itself for any other. */
  lemma PolicyOutbounds(rules: seq<Rule>, tags: Tags, p: Packet, k: nat)
    requires !p.dns && k < |rules|
    requires k == FirstHit(rules, p) || (FirstHit(rules, p) == |rules| && IsLastCatchAll(rules, k))
    ensures SingboxRouted(rules, tags, p) ==
            match rules[k].group
            case "DIRECT" => "direct"
            case "REJECT" => "block"
            case "REJECT-DROP" => "block"
            case _ => rules[k].group
  {
    SingboxSemantics(rules, tags, p);
    hide SingboxRouted, Hits, IsLastCatchAll;
  }

  // ---------- packets in the flesh ----------

  /** One connection; lists, address blocks and patterns are looked up elsewhere. */
  datatype Traffic = Traffic(host: string, destPort: int, sourcePort: int, asn: int, process: string,
                             fits: string -> bool, inGeosite: string -> bool, inGeoip: string -> bool,
                             destIn: string -> bool, sourceIn: string -> bool)

  predicate Shows(t: Traffic, f: Fact)
  {
    match f
    case HostIs(name) => t.host == name
    case HostUnder(suffix) => t.host == suffix || HasSuffix(t.host, "." + suffix)
    case HostHas(word) => Contains(t.host, word)
    case HostFits(pattern) => t.fits(pattern)
    case InGeosite(list) => t.inGeosite(list)
    case InGeoip(code) => t.inGeoip(code)
    case DestIn(block) => t.destIn(block)
    case SourceIn(block) => t.sourceIn(block)
    case DestPort(port) => t.destPort == port
    case SourcePort(port) => t.sourcePort == port
    case InAsn(asn) => t.asn == asn
    case ByProcess(process) => t.process == process
  }

  function Seen(t: Traffic): Packet { Packet(false, f => Shows(t, f)) }

  /** DOMAIN-SUFFIX,google.com,Proxy: sing-box sends www.google.com to Proxy, and notgoogle.com direct. */
  lemma SuffixReachesSubdomains(tags: Tags, t: Traffic)
    ensures var rules := [Rule("DOMAIN-SUFFIX", "google.com", "Proxy", "")];
            && (t.host == "www.google.com" ==> SingboxRouted(rules, tags, Seen(t)) == "Proxy")
            && (t.host == "notgoogle.com" ==> SingboxRouted(rules, tags, Seen(t)) == "direct")
  {
    var rules := [Rule("DOMAIN-SUFFIX", "google.com", "Proxy", "")];
    SuffixAsks(rules[0]);
    HostsBelow();
    hide Asks, Rule.IsMatch, HasSuffix;
    assert Hits(rules[0], Seen(t)) <==> t.host == "google.com" || HasSuffix(t.host, "." + "google.com");
    hide Hits, Seen;
    assert rules[1..] == [];
    SingboxSemantics(rules, tags, Seen(t));
    assert FirstCatchAll(rules[1..]) == 0;
    hide SingboxRouted;
  }

  lemma HostsBelow()
    ensures HasSuffix("www.google.com", "." + "google.com")
    ensures !HasSuffix("notgoogle.com", "." + "google.com") && "notgoogle.com" != "google.com"
  {
    var suffix := "." + "google.com";
    assert "www.google.com"[3..] == suffix;
    assert "notgoogle.com"[2..][0] == 't' && suffix[0] == '.';
  }

  lemma SuffixAsks(r: Rule)
    requires r == Rule("DOMAIN-SUFFIX", "google.com", "Proxy", "")
    ensures Asks(r) == Some(HostUnder("google.com")) && !r.IsMatch()
  {
    GraphIsTrimmed("DOMAIN-SUFFIX");
    assert ToUpper("DOMAIN-SUFFIX") == "DOMAIN-SUFFIX";
    assert |ToLower("DOMAIN-SUFFIX")| == 13;
    hide TrimSpace, ToUpper, ToLower;
  }
}
