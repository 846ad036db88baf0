/**
  Neutral routing rules (internal/generator/common.go): types and their normal forms, one rule as a
  Clash line, inline rules, and the parsing of rule lists.
 */
module Rules {
  import opened Wrappers
  import opened Text

  datatype Rule = Rule(typ: string, value: string, group: string, flag: string) {
    predicate IsMatch() { EqualFold(typ, "MATCH") || EqualFold(typ, "FINAL") }
  }

  datatype Ruleset = Ruleset(group: string, url: string, inline: string)

  datatype Config = Config(rulesets: seq<Ruleset>, enableRuleGenerator: bool, tailscale: bool)

  const TAILSCALE: seq<Rule> := [
    Rule("IP-CIDR", "100.64.0.0/10", "DIRECT", "no-resolve"),
    Rule("IP-CIDR", "fd7a:115c:a1e0::/48", "DIRECT", "no-resolve")]

  function NormalizeRuleType(typ: string): string
  {
    var t := ToUpper(TrimSpace(typ));
    if t == "HOST" then "DOMAIN"
    else if t == "HOST-SUFFIX" then "DOMAIN-SUFFIX"
    else if t == "HOST-KEYWORD" then "DOMAIN-KEYWORD"
    else if t == "HOST-WILDCARD" then "DOMAIN-SUFFIX"
    else if t == "DEST-PORT" then "DST-PORT"
    else if t == "IP6-CIDR" then "IP-CIDR6"
    else t
  }

  const VALID_RULE_TYPES: set<string> := {
    "DOMAIN", "DOMAIN-SUFFIX", "DOMAIN-KEYWORD", "DOMAIN-REGEX",
    "GEOSITE", "IP-CIDR", "IP-CIDR6", "IP-SUFFIX", "IP-ASN",
    "GEOIP", "SRC-GEOIP", "SRC-IP-CIDR", "SRC-IP-SUFFIX", "SRC-IP-ASN",
    "DST-PORT", "SRC-PORT", "IN-PORT", "IN-TYPE", "IN-USER", "IN-NAME",
    "PROCESS-NAME", "PROCESS-PATH", "PROCESS-NAME-REGEX", "PROCESS-PATH-REGEX",
    "NETWORK", "DSCP", "UID", "RULE-SET",
    "AND", "OR", "NOT", "SUB-RULE", "MATCH"}

  predicate IsValidRuleType(typ: string) { ToUpper(TrimSpace(typ)) in VALID_RULE_TYPES }

  function FormatClashRule(r: Rule): Option<string>
  {
    if r.IsMatch() then Some("MATCH," + r.group)
    else
      var canon := NormalizeRuleType(r.typ);
      if !IsValidRuleType(canon) then None
      else Some(canon + "," + r.value + "," + r.group + (if r.flag != "" then "," + r.flag else ""))
  }

  function ParseInlineRule(body: string, group: string): Option<Rule>
  {
    if EqualFold(body, "FINAL") || EqualFold(body, "MATCH") then Some(Rule("MATCH", "", group, ""))
    else
      var cut := Cut(body, ',');
      if !cut.found then None else Some(Rule(cut.before, cut.after, group, ""))
  }

  function ExpandInlineRule(body: string, group: string): Option<string>
  {
    var r := ParseInlineRule(body, group);
    if r.None? then None else FormatClashRule(r.value)
  }

  // ---------- rule lists ----------

  /** What one line of a list holds: nothing to report, a rule still without its group, or a line to report. */
  datatype Line = Nothing | Entry(typ: string, value: string, flag: string) | Skip(line: string)

  const QUOTES: set<char> := {'\'', '"'}

  predicate IsWrapped(line: string) { "payload:" <= line || "- " <= line }

  function ParseLine(raw: string): Line
  {
    var line := TrimSpace(TrimRightSet(raw, {'\r'}));
    if line == "" || "#" <= line || ";" <= line || "//" <= line then Nothing
    else if IsWrapped(line) then
      var inner := TrimSet(TrimPrefix(line, "- "), QUOTES);
      if inner == "" || "payload" <= inner then Nothing else ParseFields(inner)
    else ParseFields(line)
  }

  function TrimAll(fields: seq<string>): (r: seq<string>)
    ensures |r| == |fields|
  {
    seq(|fields|, i requires 0 <= i < |fields| => TrimSpace(fields[i]))
  }

  function ParseFields(line: string): Line
  {
    var fields := TrimAll(Split(line, ','));
    if |fields| == 2 then Entry(fields[0], fields[1], "")
    else if |fields| == 3 then Entry(fields[0], fields[1], fields[2])
    else if |fields| == 1 then
      if EqualFold(fields[0], "FINAL") || EqualFold(fields[0], "MATCH") then Entry("MATCH", "", "") else Skip(line)
    else Nothing
  }

  function ListRules(lines: seq<string>, group: string): seq<Rule>
  {
    if lines == [] then [] else
    var n := |lines| - 1;
    var line := ParseLine(lines[n]);
    ListRules(lines[..n], group) + (if line.Entry? then [Rule(line.typ, line.value, group, line.flag)] else [])
  }

  function ListSkips(lines: seq<string>): seq<string>
  {
    if lines == [] then [] else
    var n := |lines| - 1;
    var line := ParseLine(lines[n]);
    ListSkips(lines[..n]) + (if line.Skip? then [line.line] else [])
  }

  lemma ListSnoc(lines: seq<string>, i: nat, group: string)
    requires i < |lines|
    ensures var line, next := ParseLine(lines[i]), lines[..i + 1];
            && ListRules(next, group) == ListRules(lines[..i], group)
                + (if line.Entry? then [Rule(line.typ, line.value, group, line.flag)] else [])
            && ListSkips(next) == ListSkips(lines[..i]) + (if line.Skip? then [line.line] else [])
  {
    assert lines[..i + 1][..i] == lines[..i];
    hide ParseLine;
  }

  method ParseRemoteRuleset(data: string, group: string) returns (out: seq<Rule>, skipped: seq<string>)
    ensures out == ListRules(Split(data, '\n'), group) && skipped == ListSkips(Split(data, '\n'))
  {
    out, skipped := [], [];
    var lines := Split(data, '\n');
    for i := 0 to |lines|
      invariant out == ListRules(lines[..i], group) && skipped == ListSkips(lines[..i])
    {
      var raw := lines[i];
      ListSnoc(lines, i, group);
      hide ListRules, ListSkips, TrimSpace, TrimRightSet, TrimSet, TrimPrefix, EqualFold, Split;
      var line := TrimSpace(TrimRightSet(raw, {'\r'}));
      if line == "" || "#" <= line || ";" <= line || "//" <= line {
        continue;
      }
      if "payload:" <= line || "- " <= line {
        line := TrimSet(TrimPrefix(line, "- "), QUOTES);
        if line == "" || "payload" <= line {
          continue;
        }
      }
      assert ParseLine(raw) == ParseFields(line);
      var fields := TrimAll(Split(line, ','));
      match |fields| {
        case 2 => out := out + [Rule(fields[0], fields[1], group, "")];
        case 3 => out := out + [Rule(fields[0], fields[1], group, fields[2])];
        case 1 =>
          if EqualFold(fields[0], "FINAL") || EqualFold(fields[0], "MATCH") {
            out := out + [Rule("MATCH", "", group, "")];
          } else {
            skipped := skipped + [line];
          }
        case _ =>
      }
    }
    assert lines[..|lines|] == lines;
  }
}
