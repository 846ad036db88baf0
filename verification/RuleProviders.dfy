/**
  expand=false and expand=true (internal/generator/clash.go, buildRuleProviders and buildRules), each
  shown to decide packets as the rulesets do in order.

  A client reads a rule line by its comma-separated fields and takes the first line that matches.
  Which packets a (type, value, flag) matcher matches is open, and so is how it reads a provider's
  list; the converter's own reading goes entry by entry, by normalised type, without unknown types.
 */
module RuleProviders {
  import opened Wrappers
  import opened Text
  import opened Decimal
  import opened Rules

  /** Every URL's list; all fetches succeed. */
  type Fetch = string -> string

  /** What a packet matches: type, value, flag. */
  type Matcher = (string, string, string) -> bool

  datatype Provider = Provider(typ: string, behavior: string, url: string, path: string, interval: nat, format: string)

  // ---------- expand=true: inline every rule ----------

  function Neutral(rs: Ruleset, fetch: Fetch): seq<Rule>
  {
    if rs.inline != "" then
      var r := ParseInlineRule(rs.inline, rs.group);
      if r.Some? then [r.value] else []
    else if rs.url != "" then ListRules(Split(fetch(rs.url), '\n'), rs.group)
    else []
  }

  function NeutralAll(rulesets: seq<Ruleset>, fetch: Fetch): seq<Rule>
  {
    if rulesets == [] then [] else
    var n := |rulesets| - 1;
    NeutralAll(rulesets[..n], fetch) + Neutral(rulesets[n], fetch)
  }

  /** collectRules, with every list fetched. */
  function Collected(cfg: Config, fetch: Fetch): seq<Rule>
  {
    (if cfg.tailscale then TAILSCALE else [])
        + (if cfg.enableRuleGenerator then NeutralAll(cfg.rulesets, fetch) else [])
  }

  function FormatAll(rules: seq<Rule>): seq<string>
  {
    if rules == [] then [] else
    var n := |rules| - 1;
    var line := FormatClashRule(rules[n]);
    FormatAll(rules[..n]) + (if line.Some? then [line.value] else [])
  }

  function FormatSkips(rules: seq<Rule>): seq<string>
  {
    if rules == [] then [] else
    var n := |rules| - 1;
    FormatSkips(rules[..n]) + (if FormatClashRule(rules[n]).None? then [rules[n].typ + "," + rules[n].value] else [])
  }

  method BuildRules(neutral: seq<Rule>, unread: seq<string>) returns (rules: seq<string>, skipped: seq<string>)
    ensures rules == FormatAll(neutral) && skipped == unread + FormatSkips(neutral)
  {
    rules, skipped := [], unread;
    for i := 0 to |neutral|
      invariant rules == FormatAll(neutral[..i]) && skipped == unread + FormatSkips(neutral[..i])
    {
      assert neutral[..i + 1][..i] == neutral[..i];
      hide FormatClashRule;
      var line := FormatClashRule(neutral[i]);
      if line.Some? {
        rules := rules + [line.value];
      } else {
        skipped := skipped + [neutral[i].typ + "," + neutral[i].value];
      }
    }
    assert neutral[..|neutral|] == neutral;
  }

  // ---------- expand=false: providers and RULE-SET lines ----------

  datatype Built = Built(
    rules: seq<string>,
    providers: map<string, Provider>,
    byUrl: map<string, string>,      // URL to provider name
    seen: set<string>,               // name, NUL, group
    skipped: seq<string>)

  function ProviderName(k: nat): string { "provider_" + Itoa(k) }

  function ProviderFor(name: string, url: string): Provider
  {
    Provider("http", "classical", url, "./ruleset/" + name + ".list", 86400, "text")
  }

  function SeenKey(name: string, group: string): string { name + "\0" + group }

  function RuleSetLine(name: string, group: string): string { "RULE-SET," + name + "," + group }

  function Begun(cfg: Config): Built
  {
    Built(if cfg.tailscale then FormatAll(TAILSCALE) else [], map[], map[], {}, [])
  }

  function Extend(b: Built, rs: Ruleset): Built
  {
    if rs.inline != "" then
      var rule := ExpandInlineRule(rs.inline, rs.group);
      if rule.Some? then b.(rules := b.rules + [rule.value])
      else b.(skipped := b.skipped + [rs.inline + "," + rs.group])
    else if rs.url == "" then b
    else
      var known := rs.url in b.byUrl;
      var name := if known then b.byUrl[rs.url] else ProviderName(|b.byUrl| + 1);
      var b' := if known then b
                else b.(byUrl := b.byUrl[rs.url := name], providers := b.providers[name := ProviderFor(name, rs.url)]);
      if SeenKey(name, rs.group) in b'.seen then b'
      else b'.(seen := b'.seen + {SeenKey(name, rs.group)}, rules := b'.rules + [RuleSetLine(name, rs.group)])
  }

  function ExtendAll(b: Built, rulesets: seq<Ruleset>): Built
  {
    if rulesets == [] then b else Extend(ExtendAll(b, rulesets[..|rulesets| - 1]), rulesets[|rulesets| - 1])
  }

  function BuiltFrom(cfg: Config): Built
  {
    if cfg.enableRuleGenerator then ExtendAll(Begun(cfg), cfg.rulesets) else Begun(cfg)
  }

  function Direct(cidr: string): string { "IP-CIDR," + cidr + ",DIRECT,no-resolve" }

  method BuildRuleProviders(cfg: Config)
    returns (rules: seq<string>, providers: map<string, Provider>, skipped: seq<string>)
    ensures rules == BuiltFrom(cfg).rules && providers == BuiltFrom(cfg).providers && skipped == BuiltFrom(cfg).skipped
  {
    hide ExpandInlineRule, Itoa, FormatAll, Direct;
    rules, providers, skipped := [], map[], [];
    if cfg.tailscale {
      rules := [Direct("100.64.0.0/10"), Direct("fd7a:115c:a1e0::/48")];
    }
    TailscaleLines();
    if !cfg.enableRuleGenerator {
      return;
    }
    var providerByURL: map<string, string> := map[];
    var seenRuleSet: set<string> := {};
    for i := 0 to |cfg.rulesets|
      invariant Built(rules, providers, providerByURL, seenRuleSet, skipped) == ExtendAll(Begun(cfg), cfg.rulesets[..i])
    {
      assert cfg.rulesets[..i + 1][..i] == cfg.rulesets[..i];
      var rs := cfg.rulesets[i];
      if rs.inline != "" {
        var rule := ExpandInlineRule(rs.inline, rs.group);
        if rule.Some? {
          rules := rules + [rule.value];
        } else {
          skipped := skipped + [rs.inline + "," + rs.group];
        }
        continue;
      }
      if rs.url == "" {
        continue;
      }
      var name;
      if rs.url in providerByURL {
        name := providerByURL[rs.url];
      } else {
        name := "provider_" + Itoa(|providerByURL| + 1);
        providerByURL := providerByURL[rs.url := name];
        providers := providers[name := Provider("http", "classical", rs.url, "./ruleset/" + name
            + ".list", 86400, "text")];
      }
      var key := name + "\0" + rs.group;
      if key in seenRuleSet {
        continue;
      }
      seenRuleSet := seenRuleSet + {key};
      rules := rules + ["RULE-SET," + name + "," + rs.group];
    }
    assert cfg.rulesets[..|cfg.rulesets|] == cfg.rulesets;
  }

  /** The two literal lines are what the inline path renders. */
  lemma TailscaleLines()
    ensures FormatAll(TAILSCALE) == [Direct("100.64.0.0/10"), Direct("fd7a:115c:a1e0::/48")]
  {
    hide FormatClashRule, Direct, FormatAll;
    TailscaleLine("100.64.0.0/10");
    TailscaleLine("fd7a:115c:a1e0::/48");
    FormatPair(TAILSCALE[0], TAILSCALE[1]);
    assert TAILSCALE == [TAILSCALE[0], TAILSCALE[1]];
  }

  lemma FormatPair(a: Rule, b: Rule)
    requires FormatClashRule(a).Some? && FormatClashRule(b).Some?
    ensures FormatAll([a, b]) == [FormatClashRule(a).value, FormatClashRule(b).value]
  {
    hide FormatClashRule;
    assert [a, b][..1] == [a] && [a][..0] == [];
    assert FormatAll([a]) == [FormatClashRule(a).value];
  }

  lemma TailscaleLine(cidr: string)
    ensures FormatClashRule(Rule("IP-CIDR", cidr, "DIRECT", "no-resolve")) == Some(Direct(cidr))
  {
    TailscaleType();
    hide NormalizeRuleType, IsValidRuleType, Rule.IsMatch;
    SameText(cidr);
  }

  lemma TailscaleType()
    ensures !Rule("IP-CIDR", "", "", "").IsMatch() && NormalizeRuleType("IP-CIDR") == "IP-CIDR"
            && IsValidRuleType("IP-CIDR")
    ensures forall value, group, flag :: !Rule("IP-CIDR", value, group, flag).IsMatch()
  {
    assert ToUpper("IP-CIDR") == "IP-CIDR";
    GraphIsTrimmed("IP-CIDR");
    assert ToLower("IP-CIDR")[1] == 'p' && ToLower("MATCH")[1] == 'a' && |ToLower("FINAL")| == 5;
    hide TrimSpace;
  }

  lemma SameText(cidr: string)
    ensures Direct(cidr) == "IP-CIDR" + "," + cidr + "," + "DIRECT" + ("," + "no-resolve")
  {
    assert "IP-CIDR" + "," == "IP-CIDR,";
    assert "," + "DIRECT" + ("," + "no-resolve") == ",DIRECT,no-resolve";
    assert "IP-CIDR," + cidr + "," + "DIRECT" + ("," + "no-resolve") == "IP-CIDR," + cidr
        + ("," + "DIRECT" + ("," + "no-resolve"));
  }

  // ---------- how a client reads the lines ----------

  datatype Reading =
    | Always(group: string)
    | FromProvider(name: string, flag: string, group: string)
    | When(typ: string, value: string, flag: string, group: string)
    | Unreadable

  function ReadFields(f: seq<string>): Reading
  {
    if |f| == 2 && f[0] == "MATCH" then Always(f[1])
    else if |f| < 3 then Unreadable
    else
      var flag := if |f| > 3 then f[3] else "";
      if f[0] == "MATCH" then Always(f[1])
      else if f[0] == "RULE-SET" then FromProvider(f[1], flag, f[2])
      else When(f[0], f[1], flag, f[2])
  }

  function Read(line: string): Reading { ReadFields(Split(line, ',')) }

  /** One entry of a list, as a provider serves it. */
  predicate EntryMatches(r: Rule, m: Matcher)
  {
    r.IsMatch() || (IsValidRuleType(NormalizeRuleType(r.typ)) && m(NormalizeRuleType(r.typ), r.value, r.flag))
  }

  predicate AnyMatches(rules: seq<Rule>, m: Matcher) { exists i :: 0 <= i < |rules| && EntryMatches(rules[i], m) }

  predicate ListMatches(data: string, m: Matcher) { AnyMatches(ListRules(Split(data, '\n'), ""), m) }

  /** The URLs whose lists, as a client reads them, match the packet. */
  type Served = string -> bool

  /** These lists are read as the converter would read them. */
  ghost predicate ReadsAll(served: Served, fetch: Fetch, m: Matcher)
  {
    forall u :: served(u) == ListMatches(fetch(u), m)
  }

  /** The group a line sends the packet to, if it matches; a RULE-SET line asks its provider when there is one. */
  function Decide(line: string, providers: map<string, Provider>, served: Served, m: Matcher): Option<string>
  {
    match Read(line)
    case Always(g) => Some(g)
    case FromProvider(name, flag, g) =>
      if (if name in providers then served(providers[name].url) else m("RULE-SET", name, flag))
      then Some(g) else None
    case When(typ, value, flag, g) => if m(typ, value, flag) then Some(g) else None
    case Unreadable => None
  }

  function FirstMatch(lines: seq<string>, providers: map<string, Provider>, served: Served, m: Matcher): Option<string>
  {
    if lines == [] then None else
    var n := |lines| - 1;
    var before := FirstMatch(lines[..n], providers, served, m);
    if before.Some? then before else Decide(lines[n], providers, served, m)
  }

  lemma {:induction false} FirstMatchConcat(a: seq<string>, b: seq<string>, providers: map<string, Provider>,
                                            served: Served, m: Matcher)
    ensures FirstMatch(a + b, providers, served, m) ==
            var before := FirstMatch(a, providers, served, m);
            if before.Some? then before else FirstMatch(b, providers, served, m)
  {
    hide Decide;
    if b == [] {
      assert a + b == a;
    } else {
      var n := |b| - 1;
      FirstMatchConcat(a, b[..n], providers, served, m);
      assert (a + b)[..|a| + n] == a + b[..n];
    }
  }

  lemma NothingDecides(providers: map<string, Provider>, served: Served, m: Matcher)
    ensures FirstMatch([], providers, served, m) == None
  {
  }

  lemma FirstSnoc(lines: seq<string>, line: string, providers: map<string, Provider>, served: Served, m: Matcher)
    ensures FirstMatch(lines + [line], providers, served, m) ==
            var before := FirstMatch(lines, providers, served, m);
            if before.Some? then before else Decide(line, providers, served, m)
  {
    hide Decide;
    assert (lines + [line])[..|lines|] == lines;
  }

  // ---------- both outputs against the rulesets ----------

  /** What one ruleset decides: an inline body by its line, a list by whether any entry matches. */
  function RulesetDecides(rs: Ruleset, providers: map<string, Provider>, served: Served, m: Matcher): Option<string>
  {
    if rs.inline != "" then
      var line := ExpandInlineRule(rs.inline, rs.group);
      if line.Some? then Decide(line.value, providers, served, m) else None
    else if rs.url != "" && served(rs.url) then Some(rs.group)
    else None
  }

  function FirstRuleset(rulesets: seq<Ruleset>, providers: map<string, Provider>, served: Served,
                        m: Matcher): Option<string>
  {
    if rulesets == [] then None else
    var n := |rulesets| - 1;
    var before := FirstRuleset(rulesets[..n], providers, served, m);
    if before.Some? then before else RulesetDecides(rulesets[n], providers, served, m)
  }

  /** Group names come from the text before the first comma of a ruleset= entry. */
  ghost predicate WellFormed(cfg: Config) { forall i :: 0 <= i < |cfg.rulesets| ==> ',' !in cfg.rulesets[i].group }

  /** A rule the configuration writes itself that names one of the generated providers. */
  predicate Names(line: string, providers: map<string, Provider>)
  {
    Read(line).FromProvider? && Read(line).name in providers
  }

  /** No inline rule refers to a generated provider by name. */
  predicate NoNameClash(cfg: Config)
  {
    forall i :: 0 <= i < |cfg.rulesets| && cfg.rulesets[i].inline != "" ==>
      var line := ExpandInlineRule(cfg.rulesets[i].inline, cfg.rulesets[i].group);
      line.Some? ==> !Names(line.value, BuiltFrom(cfg).providers)
  }

  // -- inlined lists --

  /** Values and flags of list entries hold no comma. */
  lemma {:induction false} ListEntries(lines: seq<string>, group: string, k: nat)
    requires k < |ListRules(lines, group)|
    ensures |ListRules(lines, "")| == |ListRules(lines, group)|
    ensures var r := ListRules(lines, group)[k];
            && r.group == group && ListRules(lines, "")[k] == r.(group := "")
            && ',' !in r.value && ',' !in r.flag && Trimmed(r.typ)
  {
    var n := |lines| - 1;
    ListSizes(lines[..n], group);
    var line := ParseLine(lines[n]);
    if k < |ListRules(lines[..n], group)| {
      ListEntries(lines[..n], group, k);
    } else {
      EntryFields(lines[n]);
    }
    hide ParseLine, Trimmed;
  }

  lemma {:induction false} ListSizes(lines: seq<string>, group: string)
    ensures |ListRules(lines, "")| == |ListRules(lines, group)|
  {
    if lines != [] { ListSizes(lines[..|lines| - 1], group); }
    hide ParseLine;
  }

  lemma EntryFields(raw: string)
    requires ParseLine(raw).Entry?
    ensures var e := ParseLine(raw); ',' !in e.value && ',' !in e.flag && Trimmed(e.typ)
  {
    var line := TrimSpace(TrimRightSet(raw, {'\r'}));
    hide TrimSpace, TrimRightSet, TrimSet, TrimPrefix, ParseFields;
    var inner := if IsWrapped(line) then TrimSet(TrimPrefix(line, "- "), QUOTES) else line;
    assert ParseLine(raw) == ParseFields(inner);
    hide ParseLine;
    FieldsOfEntry(inner);
  }

  lemma FieldsOfEntry(inner: string)
    requires ParseFields(inner).Entry?
    ensures var e := ParseFields(inner); ',' !in e.value && ',' !in e.flag && Trimmed(e.typ)
  {
    hide TrimSpace, Trimmed, EqualFold, Split;
    var fields := Split(inner, ',');
    SplitAvoids(inner, ',');
    forall i | 0 <= i < |fields|
      ensures ',' !in TrimSpace(fields[i]) && Trimmed(TrimSpace(fields[i]))
    {
      TrimSpaceTrims(fields[i]);
      TrimSpaceWithin(fields[i], ',');
    }
    MatchIsTrimmed();
  }

  lemma MatchIsTrimmed()
    ensures Trimmed("MATCH")
  {
    GraphIsTrimmed("MATCH");
  }

  /** A list entry under a group: what its inlined line means to the client. */
  ghost predicate Entryish(r: Rule, group: string)
  {
    r.group == group && ',' !in group && ',' !in r.value && ',' !in r.flag && Trimmed(r.typ)
  }

  lemma ValidTypesHaveNoComma(canon: string)
    requires canon in VALID_RULE_TYPES
    ensures ',' !in canon
  {
  }

  /** NormalizeRuleType yields MATCH only for MATCH itself. */
  lemma MatchIsMatch(r: Rule)
    requires Trimmed(r.typ) && NormalizeRuleType(r.typ) == "MATCH"
    ensures r.IsMatch()
  {
    TrimmedIsFixed(r.typ);
    var t := ToUpper(r.typ);
    assert t == "MATCH";
    assert |r.typ| == 5;
    forall i | 0 <= i < 5
      ensures ToLower(r.typ)[i] == ToLower("MATCH")[i]
    {
      assert UpperChar(r.typ[i]) == t[i];
    }
    assert ToLower(r.typ) == ToLower("MATCH");
  }

  lemma UpperTrimmed(s: string)
    requires Trimmed(s)
    ensures Trimmed(ToUpper(s)) && ToUpper(ToUpper(s)) == ToUpper(s)
  {
  }

  /** A normalised type that the gate lets through is one of the table's, verbatim. */
  lemma ValidIsCanonical(typ: string)
    requires IsValidRuleType(NormalizeRuleType(typ))
    ensures NormalizeRuleType(typ) in VALID_RULE_TYPES
  {
    var t := ToUpper(TrimSpace(typ));
    TrimSpaceTrims(typ);
    UpperTrimmed(TrimSpace(typ));
    TrimmedIsFixed(t);
    if NormalizeRuleType(typ) != t {
      assert NormalizeRuleType(typ) in {"DOMAIN", "DOMAIN-SUFFIX", "DOMAIN-KEYWORD", "DST-PORT", "IP-CIDR6"};
    }
    hide TrimSpace, ToUpper;
  }

  lemma Join3(a: string, b: string, c: string)
    ensures Join([a, b, c], ",") == a + "," + b + "," + c
  {
    assert [a, b, c][1..] == [b, c] && [b, c][1..] == [c];
    assert Join([b, c], ",") == b + "," + c;
    assert a + "," + (b + "," + c) == a + "," + b + "," + c;
  }

  lemma Join4(a: string, b: string, c: string, d: string)
    ensures Join([a, b, c, d], ",") == a + "," + b + "," + c + ("," + d)
  {
    assert [a, b, c, d][1..] == [b, c, d];
    Join3(b, c, d);
    assert a + "," + (b + "," + c + "," + d) == a + "," + b + "," + c + ("," + d);
  }

  lemma ReadJoined(canon: string, r: Rule)
    requires ',' !in canon && canon != "MATCH" && ',' !in r.value && ',' !in r.group && ',' !in r.flag
    ensures Read(canon + "," + r.value + "," + r.group + (if r.flag != "" then "," + r.flag else "")) ==
            if canon == "RULE-SET" then FromProvider(r.value, r.flag, r.group)
                else When(canon, r.value, r.flag, r.group)
  {
    SplitJoin([canon, r.value, r.group], ',');
    SplitJoin([canon, r.value, r.group, r.flag], ',');
    Join3(canon, r.value, r.group);
    Join4(canon, r.value, r.group, r.flag);
    hide Split, Join;
    var line := canon + "," + r.value + "," + r.group;
    assert r.flag == "" ==> line + "" == line;
  }

  lemma ReadMatch(group: string)
    requires ',' !in group
    ensures Read("MATCH," + group) == Always(group)
  {
    SplitJoin(["MATCH", group], ',');
    assert Join(["MATCH", group], ",") == "MATCH," + group;
  }

  function DecideEntry(r: Rule, served: Served, m: Matcher): Option<string>
  {
    var line := FormatClashRule(r);
    if line.Some? then Decide(line.value, map[], served, m) else None
  }

  /** An inlined list entry decides for its group exactly when the entry matches. */
  lemma EntryDecides(r: Rule, group: string, served: Served, m: Matcher)
    requires Entryish(r, group)
    ensures DecideEntry(r, served, m) == if EntryMatches(r, m) then Some(group) else None
  {
    if r.IsMatch() {
      ReadMatch(group);
    } else {
      var canon := NormalizeRuleType(r.typ);
      if IsValidRuleType(canon) {
        ValidIsCanonical(r.typ);
        ValidTypesHaveNoComma(canon);
        if canon == "MATCH" { MatchIsMatch(r); }
        ReadJoined(canon, r);
      }
    }
    hide Read, NormalizeRuleType, IsValidRuleType, ListMatches, Rule.IsMatch;
  }

  lemma FormatSnoc(rules: seq<Rule>, served: Served, m: Matcher)
    requires rules != []
    ensures var before := FirstMatch(FormatAll(rules[..|rules| - 1]), map[], served, m);
            FirstMatch(FormatAll(rules), map[], served, m) ==
                if before.Some? then before else DecideEntry(rules[|rules| - 1], served, m)
  {
    hide FormatClashRule, Decide, FirstMatch;
    var n := |rules| - 1;
    var line := FormatClashRule(rules[n]);
    var before := FormatAll(rules[..n]);
    assert FormatAll(rules) == if line.Some? then before + [line.value] else before;
    hide FormatAll;
    if line.Some? { FirstSnoc(before, line.value, map[], served, m); }
  }

  lemma AnySnoc(rules: seq<Rule>, m: Matcher)
    requires rules != []
    ensures AnyMatches(rules, m) <==> AnyMatches(rules[..|rules| - 1], m) || EntryMatches(rules[|rules| - 1], m)
  {
    hide EntryMatches;
    var n := |rules| - 1;
    if AnyMatches(rules[..n], m) {
      var i :| 0 <= i < n && EntryMatches(rules[..n][i], m);
      assert EntryMatches(rules[i], m);
    }
    if AnyMatches(rules, m) && !EntryMatches(rules[n], m) {
      var i :| 0 <= i <= n && EntryMatches(rules[i], m);
      assert rules[..n][i] == rules[i];
    }
  }

  lemma {:induction false} InlinedDecide(rules: seq<Rule>, group: string, served: Served, m: Matcher)
    requires forall k :: 0 <= k < |rules| ==> Entryish(rules[k], group)
    ensures FirstMatch(FormatAll(rules), map[], served, m) == if AnyMatches(rules, m) then Some(group) else None
  {
    if rules != [] {
      var n := |rules| - 1;
      InlinedDecide(rules[..n], group, served, m);
      EntryDecides(rules[n], group, served, m);
      FormatSnoc(rules, served, m);
      AnySnoc(rules, m);
      hide FormatAll, EntryMatches, AnyMatches, Entryish, FirstMatch, DecideEntry;
    }
  }

  lemma FormatNothing()
    ensures FormatAll([]) == []
  {
  }

  lemma {:induction false} FormatConcat(a: seq<Rule>, b: seq<Rule>)
    ensures FormatAll(a + b) == FormatAll(a) + FormatAll(b)
  {
    hide FormatClashRule;
    if b == [] {
      assert a + b == a;
    } else {
      var n := |b| - 1;
      FormatConcat(a, b[..n]);
      assert (a + b)[..|a| + n] == a + b[..n];
      assert (a + b)[|a| + n] == b[n];
    }
  }

  lemma AnyMatchesIgnoresGroup(a: seq<Rule>, b: seq<Rule>, m: Matcher)
    requires |a| == |b| && forall k :: 0 <= k < |a| ==> b[k] == a[k].(group := b[k].group)
    ensures AnyMatches(a, m) == AnyMatches(b, m)
  {
    assert forall k :: 0 <= k < |a| ==> EntryMatches(a[k], m) == EntryMatches(b[k], m);
    hide EntryMatches;
  }

  /** What the inlined lines of one ruleset decide. */
  function InlinedDecides(rs: Ruleset, fetch: Fetch, served: Served, m: Matcher): Option<string>
  {
    FirstMatch(FormatAll(Neutral(rs, fetch)), map[], served, m)
  }

  lemma InlineDecides(rs: Ruleset, fetch: Fetch, served: Served, m: Matcher)
    requires rs.inline != ""
    ensures InlinedDecides(rs, fetch, served, m) == RulesetDecides(rs, map[], served, m)
  {
    var r := ParseInlineRule(rs.inline, rs.group);
    hide FormatClashRule, ParseInlineRule, Decide;
    if r.Some? {
      assert [r.value][..0] == [];
      FormatSnoc([r.value], served, m);
    }
  }

  lemma ListDecides(rs: Ruleset, fetch: Fetch, served: Served, m: Matcher)
    requires ReadsAll(served, fetch, m)
    requires rs.inline == "" && rs.url != "" && ',' !in rs.group
    ensures InlinedDecides(rs, fetch, served, m) == RulesetDecides(rs, map[], served, m)
  {
    var lines := Split(fetch(rs.url), '\n');
    var rules := ListRules(lines, rs.group);
    ListSizes(lines, rs.group);
    forall k | 0 <= k < |rules|
      ensures Entryish(rules[k], rs.group) && rules[k] == ListRules(lines, "")[k].(group := rs.group)
    {
      ListEntries(lines, rs.group, k);
    }
    AnyMatchesIgnoresGroup(ListRules(lines, ""), rules, m);
    InlinedDecide(rules, rs.group, served, m);
    hide FormatAll, FirstMatch, AnyMatches, ListRules, Split, Entryish;
  }

  /** Inlined, a ruleset decides as written. */
  lemma InlinedRuleset(rs: Ruleset, fetch: Fetch, served: Served, m: Matcher)
    requires ReadsAll(served, fetch, m)
    requires ',' !in rs.group
    ensures InlinedDecides(rs, fetch, served, m) == RulesetDecides(rs, map[], served, m)
  {
    if rs.inline != "" {
      InlineDecides(rs, fetch, served, m);
    } else if rs.url != "" {
      ListDecides(rs, fetch, served, m);
    }
    hide ExpandInlineRule;
  }

  lemma {:induction false} InlinedDecidesAsRulesets(rulesets: seq<Ruleset>, fetch: Fetch, served: Served, m: Matcher)
    requires ReadsAll(served, fetch, m)
    requires forall i :: 0 <= i < |rulesets| ==> ',' !in rulesets[i].group
    ensures FirstMatch(FormatAll(NeutralAll(rulesets, fetch)), map[], served, m) ==
            FirstRuleset(rulesets, map[], served, m)
  {
    hide FormatAll, FirstMatch, Neutral, RulesetDecides;
    if rulesets != [] {
      var n := |rulesets| - 1;
      InlinedDecidesAsRulesets(rulesets[..n], fetch, served, m);
      InlinedRuleset(rulesets[n], fetch, served, m);
      FormatConcat(NeutralAll(rulesets[..n], fetch), Neutral(rulesets[n], fetch));
      FirstMatchConcat(FormatAll(NeutralAll(rulesets[..n], fetch)), FormatAll(Neutral(rulesets[n], fetch)), map[],
          served, m);
    } else {
      NothingDecides(map[], served, m);
      FormatNothing();
    }
  }

  lemma TailscaleReads(cidr: string)
    requires ',' !in cidr
    ensures Read(Direct(cidr)) == When("IP-CIDR", cidr, "no-resolve", "DIRECT")
  {
    hide Read, Direct;
    ReadJoined("IP-CIDR", Rule("IP-CIDR", cidr, "DIRECT", "no-resolve"));
    SameText(cidr);
  }

  // -- providers --

  predicate Numbered(name: string, n: nat) { exists k: nat :: 1 <= k <= n && name == ProviderName(k) }

  /** Names are numbered, and each serves the URL it stands for, so no two URLs share one. */
  ghost predicate Consistent(b: Built)
  {
    && (forall name :: name in b.providers ==> Numbered(name, |b.byUrl|))
    && (forall u :: u in b.byUrl ==> b.byUrl[u] in b.providers && b.providers[b.byUrl[u]].url == u)
  }

  /** b' has everything b has. */
  ghost predicate Extends(b: Built, b': Built)
  {
    && (forall u :: u in b.byUrl ==> u in b'.byUrl && b'.byUrl[u] == b.byUrl[u])
    && (forall name :: name in b.providers ==> name in b'.providers && b'.providers[name] == b.providers[name])
  }

  lemma SameNumber(j: nat, k: nat)
    requires ProviderName(j) == ProviderName(k)
    ensures j == k
  {
    assert Itoa(j) == ProviderName(j)[9..] && Itoa(k) == ProviderName(k)[9..];
    ItoaInjective(j, k);
  }

  lemma NextNameIsNew(b: Built)
    requires Consistent(b)
    ensures ProviderName(|b.byUrl| + 1) !in b.providers
  {
    var name := ProviderName(|b.byUrl| + 1);
    hide ProviderName;
    if name in b.providers {
      var k: nat :| 1 <= k <= |b.byUrl| && name == ProviderName(k);
      SameNumber(k, |b.byUrl| + 1);
      assert false;
    }
  }

  lemma ExtendKeeps(b: Built, rs: Ruleset)
    requires Consistent(b)
    ensures Consistent(Extend(b, rs)) && Extends(b, Extend(b, rs))
  {
    hide ExpandInlineRule, ProviderName;
    if rs.inline == "" && rs.url != "" && rs.url !in b.byUrl {
      NextNameIsNew(b);
      var name := ProviderName(|b.byUrl| + 1);
      NewProviderKeeps(b, rs.url, name);
      var b1 := b.(byUrl := b.byUrl[rs.url := name], providers := b.providers[name := ProviderFor(name, rs.url)]);
      assert Extend(b, rs) == b1.(rules := Extend(b, rs).rules, seen := Extend(b, rs).seen);
      hide Extend;
    } else {
      assert Extend(b, rs) == b.(rules := Extend(b, rs).rules, seen := Extend(b, rs).seen,
          skipped := Extend(b, rs).skipped);
      hide Extend;
    }
  }

  lemma ProviderUrl(name: string, url: string)
    ensures ProviderFor(name, url).url == url
  {
  }

  lemma NewProviderKeeps(b: Built, url: string, name: string)
    requires Consistent(b) && url !in b.byUrl && name !in b.providers && name == ProviderName(|b.byUrl| + 1)
    ensures var b' := b.(byUrl := b.byUrl[url := name], providers := b.providers[name := ProviderFor(name, url)]);
            Consistent(b') && Extends(b, b')
  {
    hide ProviderName, ProviderFor, Numbered;
    ProviderUrl(name, url);
    StillNumbered(b, name);
    var b' := b.(byUrl := b.byUrl[url := name], providers := b.providers[name := ProviderFor(name, url)]);
    assert b'.byUrl.Keys == b.byUrl.Keys + {url};
    assert |b'.byUrl| == |b.byUrl| + 1;
  }

  lemma StillNumbered(b: Built, name: string)
    requires Consistent(b) && name == ProviderName(|b.byUrl| + 1)
    ensures Numbered(name, |b.byUrl| + 1) && forall n :: n in b.providers ==> Numbered(n, |b.byUrl| + 1)
  {
    hide ProviderName, Numbered;
    IsNumbered(|b.byUrl| + 1);
    forall n | n in b.providers
      ensures Numbered(n, |b.byUrl| + 1)
    {
      MoreNumbers(n, |b.byUrl|);
    }
  }

  lemma IsNumbered(k: nat)
    requires k >= 1
    ensures Numbered(ProviderName(k), k)
  {
  }

  lemma MoreNumbers(name: string, n: nat)
    requires Numbered(name, n)
    ensures Numbered(name, n + 1)
  {
    hide ProviderName;
    var k: nat :| 1 <= k <= n && name == ProviderName(k);
    assert k <= n + 1;
  }

  lemma {:induction false} ExtendAllKeeps(b: Built, rulesets: seq<Ruleset>)
    requires Consistent(b)
    ensures Consistent(ExtendAll(b, rulesets)) && Extends(b, ExtendAll(b, rulesets))
  {
    hide Consistent, Extend;
    if rulesets != [] {
      var n := |rulesets| - 1;
      ExtendAllKeeps(b, rulesets[..n]);
      ExtendKeeps(ExtendAll(b, rulesets[..n]), rulesets[n]);
    }
  }

  lemma ProviderNamePlain(k: nat)
    ensures ',' !in ProviderName(k) && '\0' !in ProviderName(k)
  {
    assert IsDigits(Itoa(k));
  }

  lemma NameIsPlain(b: Built, name: string)
    requires Consistent(b) && name in b.providers
    ensures ',' !in name && '\0' !in name
  {
    hide ProviderName;
    var k: nat :| 1 <= k <= |b.byUrl| && name == ProviderName(k);
    hide Consistent;
    ProviderNamePlain(k);
  }

  /** A (name, group) pair already emitted comes from an earlier ruleset for that provider and group. */
  lemma {:induction false} SeenBefore(b0: Built, rulesets: seq<Ruleset>, name: string, group: string) returns (j: nat)
    requires Consistent(b0) && b0.seen == {} && '\0' !in name
    requires SeenKey(name, group) in ExtendAll(b0, rulesets).seen
    ensures j < |rulesets| && rulesets[j].inline == "" && rulesets[j].url != "" && rulesets[j].group == group
    ensures rulesets[j].url in ExtendAll(b0, rulesets).byUrl && ExtendAll(b0, rulesets).byUrl[rulesets[j].url] == name
  {
    assert rulesets != [];
    var n := |rulesets| - 1;
    var b, rs := ExtendAll(b0, rulesets[..n]), rulesets[n];
    ExtendAllKeeps(b0, rulesets[..n]);
    ExtendKeeps(b, rs);
    if SeenKey(name, group) in b.seen {
      j := SeenBefore(b0, rulesets[..n], name, group);
      hide Extend, Consistent, SeenKey;
    } else {
      LastIsSeen(b, rs, name, group);
      j := n;
      hide Extend, Consistent;
    }
  }

  lemma LastIsSeen(b: Built, rs: Ruleset, name: string, group: string)
    requires Consistent(b) && '\0' !in name
    requires SeenKey(name, group) !in b.seen && SeenKey(name, group) in Extend(b, rs).seen
    ensures rs.inline == "" && rs.url != "" && rs.group == group
    ensures rs.url in Extend(b, rs).byUrl && Extend(b, rs).byUrl[rs.url] == name
  {
    hide ExpandInlineRule, ProviderName;
    var b' := Extend(b, rs);
    ExtendKeeps(b, rs);
    var own := b'.byUrl[rs.url];
    assert SeenKey(name, group) == SeenKey(own, rs.group);
    NameIsPlain(b', own);
    CutAt(own, '\0', rs.group);
    CutAt(name, '\0', group);
    hide Extend, Cut, Consistent;
  }

  lemma EarlierDecides(rulesets: seq<Ruleset>, j: nat, providers: map<string, Provider>, served: Served, m: Matcher)
    requires j < |rulesets| && RulesetDecides(rulesets[j], providers, served, m).Some?
    ensures FirstRuleset(rulesets, providers, served, m).Some?
  {
    hide RulesetDecides;
    if j < |rulesets| - 1 { EarlierDecides(rulesets[..|rulesets| - 1], j, providers, served, m); }
  }

  lemma ReadRuleSet(name: string, group: string)
    requires ',' !in name && ',' !in group
    ensures Read(RuleSetLine(name, group)) == FromProvider(name, "", group)
  {
    hide Split, Join;
    var fields := ["RULE-SET", name, group];
    SplitJoin(fields, ',');
    Join3("RULE-SET", name, group);
    assert "RULE-SET" + "," + name + "," + group == RuleSetLine(name, group);
  }

  /** A URL ruleset's own line, when it is emitted, decides as the ruleset. */
  lemma UrlLineDecides(b: Built, rs: Ruleset, providers: map<string, Provider>, served: Served, m: Matcher)
    requires rs.inline == "" && rs.url != "" && ',' !in rs.group && Consistent(b)
    requires forall name :: name in Extend(b, rs).providers ==>
            name in providers && providers[name] == Extend(b, rs).providers[name]
    ensures var name := Extend(b, rs).byUrl[rs.url];
            Decide(RuleSetLine(name, rs.group), providers, served, m) == RulesetDecides(rs, providers, served, m)
  {
    ExtendKeeps(b, rs);
    var name := Extend(b, rs).byUrl[rs.url];
    NameIsPlain(Extend(b, rs), name);
    ReadRuleSet(name, rs.group);
    hide Read, RuleSetLine, Extend, ListMatches;
  }

  lemma {:induction false} ProvidersDecideAsRulesets(b0: Built, rulesets: seq<Ruleset>,
                                                     providers: map<string, Provider>, served: Served, m: Matcher)
    requires Consistent(b0) && b0.seen == {}
    requires forall i :: 0 <= i < |rulesets| ==> ',' !in rulesets[i].group
    requires Serves(providers, ExtendAll(b0, rulesets))
    ensures FirstMatch(ExtendAll(b0, rulesets).rules, providers, served, m) ==
            var before := FirstMatch(b0.rules, providers, served, m);
            if before.Some? then before else FirstRuleset(rulesets, providers, served, m)
  {
    hide RulesetDecides, FirstMatch, Extend;
    if rulesets != [] {
      var n := |rulesets| - 1;
      var b, rs := ExtendAll(b0, rulesets[..n]), rulesets[n];
      ExtendAllKeeps(b0, rulesets[..n]);
      ExtendKeeps(b, rs);
      assert Serves(providers, b);
      hide Consistent, Serves, Extends, SeenKey, ProviderName;
      ProvidersDecideAsRulesets(b0, rulesets[..n], providers, served, m);
      if IsRepeat(b, rs) {
        RepeatDecidesNothing(b0, rulesets, providers, served, m);
      } else {
        SeenIsNamed(b0, rulesets[..n], rs.group);
        StepDecides(b, rs, providers, served, m);
      }
      hide IsRepeat;
    }
  }

  /** rs names a provider and group that already have a line. */
  predicate IsRepeat(b: Built, rs: Ruleset)
  {
    rs.inline == "" && rs.url != "" && rs.url in b.byUrl && SeenKey(b.byUrl[rs.url], rs.group) in b.seen
  }

  /** providers holds everything b holds. */
  ghost predicate Serves(providers: map<string, Provider>, b: Built)
  {
    forall name :: name in b.providers ==> name in providers && providers[name] == b.providers[name]
  }

  lemma StepDecides(b: Built, rs: Ruleset, providers: map<string, Provider>, served: Served, m: Matcher)
    requires Consistent(b) && ',' !in rs.group && Serves(providers, Extend(b, rs)) && !IsRepeat(b, rs)
    requires rs.url !in b.byUrl ==> SeenKey(ProviderName(|b.byUrl| + 1), rs.group) !in b.seen
    ensures FirstMatch(Extend(b, rs).rules, providers, served, m) ==
            var before := FirstMatch(b.rules, providers, served, m);
            if before.Some? then before else RulesetDecides(rs, providers, served, m)
  {
    hide ExpandInlineRule, FirstMatch, Decide, ProviderName;
    if rs.inline != "" {
      var line := ExpandInlineRule(rs.inline, rs.group);
      if line.Some? { FirstSnoc(b.rules, line.value, providers, served, m); }
    } else if rs.url != "" {
      UrlLineDecides(b, rs, providers, served, m);
      var line := RuleSetLine(Extend(b, rs).byUrl[rs.url], rs.group);
      FirstSnoc(b.rules, line, providers, served, m);
      assert Extend(b, rs).rules == b.rules + [line];
      hide Extend, RuleSetLine;
    }
  }

  /** A line left out would have decided nothing new: an earlier ruleset has the same URL and group. */
  lemma RepeatDecidesNothing(b0: Built, rulesets: seq<Ruleset>, providers: map<string, Provider>, served: Served,
                             m: Matcher)
    requires Consistent(b0) && b0.seen == {} && rulesets != []
    requires IsRepeat(ExtendAll(b0, rulesets[..|rulesets| - 1]), rulesets[|rulesets| - 1])
    ensures ExtendAll(b0, rulesets).rules == ExtendAll(b0, rulesets[..|rulesets| - 1]).rules
    ensures RulesetDecides(rulesets[|rulesets| - 1], providers, served, m).Some? ==>
              FirstRuleset(rulesets[..|rulesets| - 1], providers, served, m).Some?
  {
    var n := |rulesets| - 1;
    var b, rs := ExtendAll(b0, rulesets[..n]), rulesets[n];
    ExtendAllKeeps(b0, rulesets[..n]);
    var name := b.byUrl[rs.url];
    NameIsPlain(b, name);
    var j := SeenBefore(b0, rulesets[..n], name, rs.group);
    assert rulesets[..n][j] == rs;
    if RulesetDecides(rs, providers, served, m).Some? {
      EarlierDecides(rulesets[..n], j, providers, served, m);
    }
    hide RulesetDecides, FirstRuleset, ExpandInlineRule;
  }

  /** A name not used yet has no line yet. */
  lemma {:induction false} SeenIsNamed(b0: Built, rulesets: seq<Ruleset>, group: string)
    requires Consistent(b0) && b0.seen == {}
    ensures var b := ExtendAll(b0, rulesets); SeenKey(ProviderName(|b.byUrl| + 1), group) !in b.seen
  {
    var b := ExtendAll(b0, rulesets);
    var name := ProviderName(|b.byUrl| + 1);
    ExtendAllKeeps(b0, rulesets);
    NextNameIsNew(b);
    assert IsDigits(Itoa(|b.byUrl| + 1));
    if SeenKey(name, group) in b.seen {
      var j := SeenBefore(b0, rulesets, name, group);
    }
    hide ExtendAll, SeenKey;
  }

  lemma BegunIsConsistent(cfg: Config)
    ensures Consistent(Begun(cfg)) && Begun(cfg).seen == {}
  {
  }
}
