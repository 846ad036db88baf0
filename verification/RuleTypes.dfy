/**
  Rule types and inline rules in the open (internal/generator/common.go): the names that stand for one another, the
  types a Clash configuration may hold, and what the line of an inline rule says to a client.
 */
module RuleTypes {
  import opened Wrappers
  import opened Text
  import opened Rules
  import opened RuleProviders
  import Routing = SingboxRouting

  // ---------- types ----------

  const ALIASES: map<string, string> := map[
    "HOST" := "DOMAIN", "HOST-SUFFIX" := "DOMAIN-SUFFIX", "HOST-WILDCARD" := "DOMAIN-SUFFIX",
    "HOST-KEYWORD" := "DOMAIN-KEYWORD", "DEST-PORT" := "DST-PORT", "IP6-CIDR" := "IP-CIDR6"]

  /** A type is read in upper case without surrounding blanks; an alias stands for its type, any other for itself. */
  lemma NameMeans(typ: string)
    ensures var t := ToUpper(TrimSpace(typ)); NormalizeRuleType(typ) == if t in ALIASES then ALIASES[t] else t
  {
    hide TrimSpace, ToUpper;
  }

  const BY_HOST: set<string> := {"DOMAIN", "DOMAIN-SUFFIX", "DOMAIN-KEYWORD", "DOMAIN-REGEX", "GEOSITE"}
  const BY_ADDRESS: set<string> := {"IP-CIDR", "IP-CIDR6", "IP-SUFFIX", "IP-ASN", "GEOIP"}
  const BY_SOURCE: set<string> := {"SRC-GEOIP", "SRC-IP-CIDR", "SRC-IP-SUFFIX", "SRC-IP-ASN"}
  const BY_PORT: set<string> := {"DST-PORT", "SRC-PORT", "IN-PORT"}
  const BY_INBOUND: set<string> := {"IN-TYPE", "IN-USER", "IN-NAME"}
  const BY_PROCESS: set<string> := {"PROCESS-NAME", "PROCESS-PATH", "PROCESS-NAME-REGEX", "PROCESS-PATH-REGEX", "UID"}
  const BY_TRAFFIC: set<string> := {"NETWORK", "DSCP"}
  const COMPOUND: set<string> := {"RULE-SET", "AND", "OR", "NOT", "SUB-RULE", "MATCH"}

  /** A normalised type is taken when it is one of these and no other. */
  lemma TypesTaken(typ: string)
    ensures IsValidRuleType(NormalizeRuleType(typ)) <==>
            NormalizeRuleType(typ) in BY_HOST + BY_ADDRESS + BY_SOURCE + BY_PORT + BY_INBOUND + BY_PROCESS + BY_TRAFFIC
                                      + COMPOUND
  {
    NormalIsNormal(typ);
    TableIs(NormalizeRuleType(typ));
    hide NormalizeRuleType;
  }

  lemma TableIs(t: string)
    ensures t in VALID_RULE_TYPES <==>
            t in BY_HOST + BY_ADDRESS + BY_SOURCE + BY_PORT + BY_INBOUND + BY_PROCESS + BY_TRAFFIC + COMPOUND
  {
  }

  lemma NormalIsNormal(typ: string)
    ensures ToUpper(TrimSpace(NormalizeRuleType(typ))) == NormalizeRuleType(typ)
  {
    var t := ToUpper(TrimSpace(typ));
    TrimSpaceTrims(typ);
    UpperTrimmed(TrimSpace(typ));
    if t in ALIASES {
      AliasIsNormal(t);
    } else {
      TrimmedIsFixed(t);
    }
    NameMeans(typ);
    hide TrimSpace, ToUpper, NormalizeRuleType, Trimmed;
  }

  lemma AliasIsNormal(t: string)
    requires t in ALIASES
    ensures ToUpper(TrimSpace(ALIASES[t])) == ALIASES[t]
  {
    var n := ALIASES[t];
    GraphIsTrimmed(n);
    assert forall i :: 0 <= i < |n| ==> UpperChar(n[i]) == n[i];
    hide TrimSpace;
    assert ToUpper(n) == n;
  }

  /** A rule that asks something of a packet is a line of a Clash configuration. */
  lemma AskedIsTaken(r: Rule)
    requires Routing.Asks(r).Some?
    ensures FormatClashRule(r).Some?
  {
    TypesTaken(r.typ);
    NameMeans(r.typ);
    AskedTypes(r);
    hide NormalizeRuleType, IsValidRuleType, Routing.Asks, ToUpper, TrimSpace, Rule.IsMatch;
  }

  lemma AskedTypes(r: Rule)
    requires Routing.Asks(r).Some?
    ensures var t := ToUpper(TrimSpace(r.typ));
            (if t in ALIASES then ALIASES[t] else t) in BY_HOST + BY_ADDRESS + BY_SOURCE + BY_PORT + BY_PROCESS
  {
    hide TrimSpace, ToUpper;
  }

  // ---------- inline rules ----------

  /** The body of an inline rule: a catch-all word in any case, a type and what follows its comma, or no rule. */
  lemma InlineSays(typ: string, value: string, group: string)
    requires ',' !in typ
    ensures ParseInlineRule(typ + "," + value, group) == Some(Rule(typ, value, group, ""))
    ensures ParseInlineRule(typ, group) ==
            if ToUpper(typ) == "FINAL" || ToUpper(typ) == "MATCH" then Some(Rule("MATCH", "", group, "")) else None
  {
    var body := typ + "," + value;
    assert body == typ + [','] + value;
    CutAt(typ, ',', value);
    assert body[|typ|] == ',';
    NoWord(body, |typ|);
    Folds(typ, "FINAL");
    Folds(typ, "MATCH");
    hide EqualFold, ToUpper, Cut;
    assert Cut(typ, ',').found == false by { Uncut(typ); }
  }

  lemma Uncut(s: string)
    requires ',' !in s
    ensures !Cut(s, ',').found
  {
  }

  lemma NoWord(s: string, i: nat)
    requires i < |s| && s[i] == ','
    ensures !EqualFold(s, "FINAL") && !EqualFold(s, "MATCH")
  {
    Folds(s, "FINAL");
    Folds(s, "MATCH");
    assert ToUpper(s)[i] == ',';
    assert ',' !in "FINAL" && ',' !in "MATCH";
    hide EqualFold;
  }

  /** Equal up to case is equal in upper case. */
  lemma Folds(s: string, word: string)
    requires word == "FINAL" || word == "MATCH"
    ensures EqualFold(s, word) <==> ToUpper(s) == word
  {
    var low := ToLower(word);
    if EqualFold(s, word) {
      assert |s| == 5;
      forall i | 0 <= i < 5
        ensures ToUpper(s)[i] == word[i]
      {
        assert LowerChar(s[i]) == ToLower(s)[i] == low[i] == LowerChar(word[i]);
      }
      assert ToUpper(s) == word;
    }
    if ToUpper(s) == word {
      assert |s| == 5;
      forall i | 0 <= i < 5
        ensures ToLower(s)[i] == low[i]
      {
        assert UpperChar(s[i]) == ToUpper(s)[i] == word[i];
      }
      assert ToLower(s) == low;
    }
  }

  /** The group a client finds in a line, where it reads one. */
  function GroupRead(line: string): Option<string>
  {
    match Read(line)
    case Always(g) => Some(g)
    case FromProvider(_, _, g) => Some(g)
    case When(_, _, _, g) => Some(g)
    case Unreadable => None
  }

  /**
    The group is written last, after whatever follows the type, so a client finds it in its place if and only if
    nothing follows the value, or what does is the group's own name.
   */
  lemma InlineGroupIff(typ: string, value: string, group: string)
    requires ',' !in typ && ',' !in group
    requires IsValidRuleType(NormalizeRuleType(typ)) && NormalizeRuleType(typ) != "MATCH"
    ensures var line, parts := ExpandInlineRule(typ + "," + value, group), Split(value, ',');
            && line.Some?
            && GroupRead(line.value) == Some(if |parts| == 1 then group else parts[1])
            && (GroupRead(line.value) == Some(group) <==> |parts| == 1 || parts[1] == group)
  {
    var canon, parts := NormalizeRuleType(typ), Split(value, ',');
    InlineSays(typ, value, group);
    ValidIsCanonical(typ);
    ValidTypesHaveNoComma(canon);
    NotCatchAll(typ);
    hide NormalizeRuleType, IsValidRuleType, ParseInlineRule, Split;
    var r := Rule(typ, value, group, "");
    assert FormatClashRule(r) == Some(canon + "," + value + "," + group + "");
    LineFields(canon, value, group);
    hide FormatClashRule, Rule.IsMatch;
  }

  lemma NotCatchAll(typ: string)
    requires IsValidRuleType(NormalizeRuleType(typ)) && NormalizeRuleType(typ) != "MATCH"
    ensures !EqualFold(typ, "FINAL") && !EqualFold(typ, "MATCH")
  {
    Folds(typ, "FINAL");
    Folds(typ, "MATCH");
    NameMeans(typ);
    ValidIsCanonical(typ);
    WordsAreNoTypes();
    hide EqualFold, ToUpper, TrimSpace, IsValidRuleType, NormalizeRuleType, ALIASES, VALID_RULE_TYPES;
    if ToUpper(typ) == "FINAL" || ToUpper(typ) == "MATCH" { UpperWordTrims(typ); }
  }

  lemma WordsAreNoTypes()
    ensures "FINAL" !in ALIASES && "MATCH" !in ALIASES && "FINAL" !in VALID_RULE_TYPES
  {
  }

  lemma UpperWordTrims(typ: string)
    requires ToUpper(typ) == "FINAL" || ToUpper(typ) == "MATCH"
    ensures TrimSpace(typ) == typ
  {
    assert UpperChar(typ[0]) == ToUpper(typ)[0] && UpperChar(typ[|typ| - 1]) == ToUpper(typ)[|typ| - 1];
    GraphIsTrimmed(typ);
  }

  lemma LineFields(canon: string, value: string, group: string)
    requires ',' !in canon && ',' !in group && canon != "MATCH"
    ensures var line, parts := canon + "," + value + "," + group, Split(value, ',');
            GroupRead(line + "") == Some(if |parts| == 1 then group else parts[1])
  {
    hide Join;
    var parts := Split(value, ',');
    SplitAvoids(value, ',');
    var f := [canon] + parts + [group];
    JoinedFields(canon, parts, group);
    SplitJoin(f, ',');
    var line := canon + "," + value + "," + group;
    assert Join(f, ",") == line && line + "" == line;
    assert Read(line) == ReadFields(f);
    assert f[0] == canon && f[2] == if |parts| == 1 then group else parts[1];
    hide Split, Read, ReadFields;
    ThirdField(f);
  }

  lemma ThirdField(f: seq<string>)
    requires |f| >= 3 && f[0] != "MATCH"
    ensures var r := ReadFields(f); !r.Unreadable? && r.group == f[2]
  {
  }

  lemma JoinedFields(canon: string, parts: seq<string>, group: string)
    requires parts != []
    ensures Join([canon] + parts + [group], ",") == canon + "," + Join(parts, ",") + "," + group
  {
    JoinSnoc([canon] + parts, group, ",");
    assert ([canon] + parts)[1..] == parts;
    assert Join([canon] + parts, ",") == canon + "," + Join(parts, ",");
    hide Join;
  }
}
