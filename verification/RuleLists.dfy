/**
  What a rule list says (internal/generator/common.go, parseRemoteRuleset): the list format, written down
  on its own, and that the parser reads every list so written as the rules it lists.
 */
module RuleLists {
  import opened Wrappers
  import opened Text
  import opened Rules

  // ---------- the format ----------

  datatype Listing =
    | Word(word: string)
    | Pair(typ: string, value: string)
    | Flagged(typ: string, value: string, flag: string)
    | Wide(fields: seq<string>)

  /**
    One line as a list's author may write it: a listing, perhaps as a YAML item, quoted or not; a remark or
    a payload header; or nothing.
   */
  datatype Content =
    | Plain(listing: Listing)
    | Item(quote: string, listing: Listing)
    | Remark(marker: string, text: string)
    | Empty

  /** Blanks may surround any line, a CR among them. */
  datatype Written = Written(before: string, content: Content, after: string)

  predicate IsBlank(c: char) { c == ' ' || c == '\t' || c == '\r' }

  predicate AllBlank(s: string) { forall i :: 0 <= i < |s| ==> IsBlank(s[i]) }

  const MARKERS: set<string> := {"#", ";", "//", "payload:"}

  function FieldsOf(l: Listing): seq<string>
  {
    match l
    case Word(word) => [word]
    case Pair(typ, value) => [typ, value]
    case Flagged(typ, value, flag) => [typ, value, flag]
    case Wide(fields) => fields
  }

  function TextOf(l: Listing): string { Join(FieldsOf(l), ",") }

  predicate FieldFits(f: string) { Trimmed(f) && ',' !in f && '\n' !in f }

  predicate ListingFits(l: Listing)
  {
    && (forall i :: 0 <= i < |FieldsOf(l)| ==> FieldFits(FieldsOf(l)[i]))
    && (l.Word? ==> l.word != "") && (l.Wide? ==> |l.fields| >= 4)
  }

  predicate ContentFits(c: Content)
  {
    match c
    case Plain(l) => ListingFits(l) && (forall m :: m in MARKERS ==> !(m <= TextOf(l))) && !("- " <= TextOf(l))
    case Item(quote, l) =>
      var text := TextOf(l);
      && ListingFits(l) && quote in {"", "'", "\""}
      && text[0] !in QUOTES && text[|text| - 1] !in QUOTES && !("payload" <= text)
    case Remark(marker, text) => marker in MARKERS && '\n' !in text
    case Empty => true
  }

  function ContentText(c: Content): string
  {
    match c
    case Plain(l) => TextOf(l)
    case Item(quote, l) => "- " + quote + TextOf(l) + quote
    case Remark(marker, text) => marker + text
    case Empty => ""
  }

  predicate Fits(w: Written) { AllBlank(w.before) && AllBlank(w.after) && ContentFits(w.content) }

  function Raw(w: Written): string { w.before + ContentText(w.content) + w.after }

  function Raws(ws: seq<Written>): (r: seq<string>)
    ensures |r| == |ws|
  {
    seq(|ws|, i requires 0 <= i < |ws| => Raw(ws[i]))
  }

  // ---------- what it says ----------

  function ListingOf(c: Content): Option<Listing>
  {
    match c
    case Plain(l) => Some(l)
    case Item(_, l) => Some(l)
    case _ => None
  }

  /** The word FINAL or MATCH, in any case. */
  predicate IsCatchAll(word: string) { ToUpper(word) == "FINAL" || ToUpper(word) == "MATCH" }

  /** The type comes first, then the value, then the flag; a listing of four or more fields gives no rule. */
  function RuleOf(l: Listing, group: string): Option<Rule>
  {
    match l
    case Word(word) => if IsCatchAll(word) then Some(Rule("MATCH", "", group, "")) else None
    case Pair(typ, value) => Some(Rule(typ, value, group, ""))
    case Flagged(typ, value, flag) => Some(Rule(typ, value, group, flag))
    case Wide(_) => None
  }

  /** Only a single word that is no catch-all is reported. */
  function SkipOf(l: Listing): Option<string> { if l.Word? && !IsCatchAll(l.word) then Some(l.word) else None }

  function RulesIn(ws: seq<Written>, group: string): seq<Rule>
  {
    if ws == [] then [] else
    var n := |ws| - 1;
    var l := ListingOf(ws[n].content);
    var r := if l.Some? then RuleOf(l.value, group) else None;
    RulesIn(ws[..n], group) + if r.Some? then [r.value] else []
  }

  function SkipsIn(ws: seq<Written>): seq<string>
  {
    if ws == [] then [] else
    var n := |ws| - 1;
    var l := ListingOf(ws[n].content);
    var s := if l.Some? then SkipOf(l.value) else None;
    SkipsIn(ws[..n]) + if s.Some? then [s.value] else []
  }

  // ---------- blanks around a line ----------

  lemma {:induction false} LeftBlanks(a: string, x: string)
    requires AllBlank(a) && (x == "" || SpacePrefix(x) == 0)
    ensures TrimLeft(a + x) == TrimLeft(x)
  {
    if a == "" {
      assert a + x == x;
    } else {
      assert (a + x)[0] == a[0] && IsBlank(a[0]);
      assert (a + x)[1..] == a[1..] + x;
      LeftBlanks(a[1..], x);
    }
  }

  lemma {:induction false} RightBlanks(x: string, b: string)
    requires AllBlank(b)
    ensures TrimRight(x + b) == TrimRight(x)
  {
    if b == "" {
      assert x + b == x;
    } else {
      var n := |b| - 1;
      assert (x + b)[|x + b| - 1] == b[n] && IsBlank(b[n]);
      assert (x + b)[..|x + b| - 1] == x + b[..n];
      RightBlanks(x, b[..n]);
    }
  }

  /** Cutting CRs off the end cuts off blanks. */
  lemma {:induction false} CutsBlanks(x: string, b: string) returns (rest: string)
    requires AllBlank(b) && (x == "" || x[|x| - 1] != '\r')
    ensures TrimRightSet(x + b, {'\r'}) == x + rest && AllBlank(rest)
  {
    if b == "" {
      assert x + b == x;
      rest := "";
    } else {
      var n := |b| - 1;
      var s := x + b;
      assert s[|s| - 1] == b[n] && s[..|s| - 1] == x + b[..n];
      if b[n] == '\r' { rest := CutsBlanks(x, b[..n]); } else { rest := b; }
    }
  }

  lemma AppendKeepsStart(x: string, b: string)
    requires x != "" && SpacePrefix(x) == 0 && AllBlank(b)
    ensures SpacePrefix(x + b) == 0
  {
    var s := x + b;
    assert s[0] == x[0];
    if |x| == 1 {
      assert |s| >= 2 ==> s[1] == b[0] && IsBlank(b[0]);
    } else {
      assert s[1] == x[1];
      if |x| == 2 { assert |s| >= 3 ==> s[2] == b[0] && IsBlank(b[0]); } else { assert s[2] == x[2]; }
    }
  }

  lemma EndsClean(x: string)
    requires x != "" && SpaceSuffix(x) == 0
    ensures x[|x| - 1] != '\r' && TrimRight(x) == x
  {
  }

  /** A trimmed text between blanks is what the line says. */
  lemma LineIs(a: string, x: string, b: string)
    requires AllBlank(a) && AllBlank(b) && Trimmed(x) && x != ""
    ensures TrimSpace(TrimRightSet(a + x + b, {'\r'})) == x
  {
    EndsClean(x);
    var front := a + x;
    assert front[|front| - 1] == x[|x| - 1];
    var rest := CutsBlanks(front, b);
    AppendKeepsStart(x, rest);
    assert a + x + rest == a + (x + rest);
    LeftBlanks(a, x + rest);
    StaysLeft(x + rest);
    RightBlanks(x, rest);
    hide TrimLeft, TrimRight, TrimRightSet, SpacePrefix, SpaceSuffix;
  }

  lemma StaysLeft(x: string)
    requires SpacePrefix(x) == 0
    ensures TrimLeft(x) == x
  {
  }

  lemma {:induction false} BlankIsNothing(b: string)
    requires AllBlank(b)
    ensures TrimSpace(TrimRightSet(b, {'\r'})) == ""
  {
    assert "" + b == b;
    var rest := CutsBlanks("", b);
    assert "" + rest == rest && rest + "" == rest;
    LeftBlanks(rest, "");
    hide TrimRightSet;
  }

  // ---------- one line ----------

  /** A remark's marker is what its line starts with, whatever is trimmed off its end. */
  lemma {:induction false} MarkerStays(marker: string, text: string)
    requires marker in MARKERS
    ensures marker <= TrimRight(marker + text)
    decreases |text|
  {
    var s := marker + text;
    var n := SpaceSuffix(s);
    if n > 0 {
      MarkerIsGraph(marker, text, n);
      assert s[..|s| - n] == marker + text[..|text| - n];
      MarkerStays(marker, text[..|text| - n]);
    }
    hide SpaceSuffix;
  }

  lemma MarkerIsGraph(marker: string, text: string, n: nat)
    requires marker in MARKERS && n == SpaceSuffix(marker + text) && n > 0
    ensures n <= |text|
  {
    var s := marker + text;
    assert forall i :: 0 <= i < |marker| ==> IsGraph(marker[i]) && s[i] == marker[i];
    assert !IsGraph(s[|s| - 1]);
    if n >= 2 { assert !IsGraph(s[|s| - 2]); }
    if n == 3 { assert !IsGraph(s[|s| - 3]); }
  }

  /** Cutting CRs off the end leaves a front that does not end in one. */
  lemma {:induction false} CutsEnd(x: string, b: string) returns (rest: string)
    requires x != "" && x[|x| - 1] != '\r'
    ensures TrimRightSet(x + b, {'\r'}) == x + rest
  {
    if b == "" {
      assert x + b == x;
      rest := "";
    } else {
      var n := |b| - 1;
      var s := x + b;
      assert s[|s| - 1] == b[n] && s[..|s| - 1] == x + b[..n];
      if b[n] == '\r' { rest := CutsEnd(x, b[..n]); } else { rest := b; }
    }
  }

  lemma RemarkStarts(a: string, marker: string, text: string, b: string)
    requires AllBlank(a) && marker in MARKERS
    ensures marker <= TrimSpace(TrimRightSet(a + (marker + text) + b, {'\r'}))
  {
    var front := a + marker;
    assert front[|front| - 1] == marker[|marker| - 1] != '\r';
    assert a + (marker + text) + b == front + (text + b);
    var rest := CutsEnd(front, text + b);
    assert front + rest == a + (marker + rest);
    assert (marker + rest)[0] == marker[0];
    LeftBlanks(a, marker + rest);
    StaysLeft(marker + rest);
    MarkerStays(marker, rest);
    hide TrimLeft, TrimRight, TrimRightSet;
  }

  /** Trimming quotation marks leaves a start without any. */
  lemma {:induction false} QuotesKeepStart(x: string, b: string)
    requires x != "" && forall i :: 0 <= i < |x| ==> x[i] !in QUOTES
    ensures x <= TrimRightSet(x + b, QUOTES) && TrimLeftSet(x + b, QUOTES) == x + b
    decreases |b|
  {
    var s := x + b;
    assert s[0] == x[0];
    if s[|s| - 1] in QUOTES {
      assert b != "";
      assert s[..|s| - 1] == x + b[..|b| - 1];
      QuotesKeepStart(x, b[..|b| - 1]);
    }
  }

  lemma RemarkIsNothing(marker: string, line: string)
    requires marker in MARKERS && marker <= line
    ensures line == "" || "#" <= line || ";" <= line || "//" <= line ||
            ("payload:" <= line && "payload" <= TrimSet(TrimPrefix(line, "- "), QUOTES))
  {
    if marker == "payload:" {
      assert line == "payload" + line[7..] && line[0] == 'p';
      QuotesKeepStart("payload", line[7..]);
    }
  }

  lemma StartStays(x: string, rest: string)
    requires SpacePrefix(x) == 0 && rest != "" && IsGraph(rest[0])
    ensures SpacePrefix(x + rest) == 0
  {
    var s := x + rest;
    assert forall i :: 0 <= i < |x| ==> s[i] == x[i];
    assert s[|x|] == rest[0];
  }

  lemma EndStays(front: string, x: string)
    requires SpaceSuffix(x) == 0 && front != "" && front[|front| - 1] as int < 0x80
    requires x == "" ==> IsGraph(front[|front| - 1])
    ensures SpaceSuffix(front + x) == 0
  {
    var s := front + x;
    assert forall k :: |front| <= k < |s| ==> s[k] == x[k - |front|];
    assert s[|front| - 1] == front[|front| - 1];
  }

  lemma {:induction false} JoinTrimmed(fields: seq<string>)
    requires fields != [] && (|fields| == 1 ==> fields[0] != "")
    requires forall i :: 0 <= i < |fields| ==> FieldFits(fields[i])
    ensures Join(fields, ",") != "" && Trimmed(Join(fields, ","))
  {
    hide SpacePrefix, SpaceSuffix;
    if |fields| > 1 {
      var n := |fields| - 1;
      var rest := "," + Join(fields[1..], ",");
      Regroup(fields[0], ",", Join(fields[1..], ","));
      StartStays(fields[0], rest);
      assert fields == fields[..n] + [fields[n]];
      JoinSnoc(fields[..n], fields[n], ",");
      EndStays(Join(fields[..n], ",") + ",", fields[n]);
    }
  }

  lemma FieldsRead(l: Listing)
    requires ListingFits(l)
    ensures TrimAll(Split(TextOf(l), ',')) == FieldsOf(l)
  {
    var fields := FieldsOf(l);
    SplitJoin(fields, ',');
    hide Split, Join, FieldsOf;
    forall i | 0 <= i < |fields|
      ensures TrimSpace(fields[i]) == fields[i]
    {
      TrimmedIsFixed(fields[i]);
    }
    hide TrimSpace;
  }

  lemma TextTrimmed(l: Listing)
    requires ListingFits(l)
    ensures TextOf(l) != "" && Trimmed(TextOf(l))
  {
    JoinTrimmed(FieldsOf(l));
    hide Trimmed, Join;
  }

  lemma QuotesGo(quote: string, text: string)
    requires quote in {"", "'", "\""} && text != "" && text[0] !in QUOTES && text[|text| - 1] !in QUOTES
    ensures TrimSet(quote + text + quote, QUOTES) == text
  {
    var s := quote + text + quote;
    if quote == "" {
      assert s == text;
    } else {
      assert s[0] == quote[0] && s[1..] == text + quote;
      assert (text + quote)[0] == text[0];
      var u := text + quote;
      assert u[|u| - 1] == quote[0] && u[..|u| - 1] == text;
      assert TrimLeftSet(u, QUOTES) == u && TrimRightSet(text, QUOTES) == text;
      assert TrimLeftSet(s, QUOTES) == u;
    }
  }

  lemma ItemTrimmed(quote: string, text: string)
    requires quote in {"", "'", "\""} && text != "" && Trimmed(text)
    ensures var x := "- " + quote + text + quote;
            x != "" && Trimmed(x) && "- " <= x && x[2..] == quote + text + quote
  {
    var x := "- " + quote + text + quote;
    assert x == "- " + (quote + text + quote);
    assert x[0] == '-';
    if quote == "" {
      assert x == "- " + text;
      EndStays("- ", text);
    } else {
      assert x[|x| - 1] == quote[0];
    }
  }

  lemma CatchAllEither(word: string)
    ensures IsCatchAll(word) <==> EqualFold(word, "FINAL") || EqualFold(word, "MATCH")
  {
    FoldEither(word, "FINAL");
    FoldEither(word, "MATCH");
    hide ToUpper, EqualFold;
  }

  /** Upper case tells as much as lower case. */
  lemma FoldEither(a: string, b: string)
    requires forall i :: 0 <= i < |b| ==> 'A' <= b[i] <= 'Z'
    ensures ToUpper(a) == b <==> EqualFold(a, b)
  {
    var u, l, m := ToUpper(a), ToLower(a), ToLower(b);
    if u == b {
      assert forall i :: 0 <= i < |a| ==> UpperChar(a[i]) == u[i] == b[i];
      assert l == m;
    }
    if l == m {
      assert |a| == |b|;
      assert forall i :: 0 <= i < |a| ==> LowerChar(a[i]) == l[i] == m[i] == LowerChar(b[i]);
      assert u == b;
    }
  }

  lemma FieldsMean(l: Listing, group: string)
    requires ListingFits(l)
    ensures var line := ParseFields(TextOf(l));
            && (if line.Entry? then Some(Rule(line.typ, line.value, group, line.flag)) else None) == RuleOf(l, group)
            && (if line.Skip? then Some(line.line) else None) == SkipOf(l)
  {
    FieldsRead(l);
    if l.Word? {
      CatchAllEither(l.word);
      JoinOne(l.word, ",");
    }
    hide Trimmed, TrimAll, Split, EqualFold, IsCatchAll, FieldFits, Join;
  }

  /** What the parser makes of a line as written. */
  lemma LineMeans(w: Written, group: string)
    requires Fits(w)
    ensures var line, l := ParseLine(Raw(w)), ListingOf(w.content);
            && (if line.Entry? then Some(Rule(line.typ, line.value, group, line.flag)) else None)
               == (if l.Some? then RuleOf(l.value, group) else None)
            && (if line.Skip? then Some(line.line) else None) == (if l.Some? then SkipOf(l.value) else None)
  {
    hide TrimSpace, TrimRightSet, TrimSet, TrimPrefix, ParseFields, RuleOf, SkipOf, ListingFits, Trimmed;
    match w.content {
      case Empty =>
        BlankIsNothing(w.before + w.after);
        assert w.before + "" + w.after == w.before + w.after;
      case Remark(marker, text) =>
        RemarkStarts(w.before, marker, text, w.after);
        RemarkIsNothing(marker, TrimSpace(TrimRightSet(Raw(w), {'\r'})));
        PlainIsNoItem(marker, TrimSpace(TrimRightSet(Raw(w), {'\r'})));
      case Plain(l) =>
        TextTrimmed(l);
        LineIs(w.before, TextOf(l), w.after);
        FieldsMean(l, group);
        hide TextOf;
      case Item(quote, l) =>
        TextTrimmed(l);
        ItemTrimmed(quote, TextOf(l));
        LineIs(w.before, ContentText(w.content), w.after);
        QuotesGo(quote, TextOf(l));
        FieldsMean(l, group);
        hide TextOf;
        ItemOpens(ContentText(w.content));
    }
  }

  lemma PlainIsNoItem(marker: string, line: string)
    requires marker in MARKERS && marker <= line
    ensures !("- " <= line)
  {
    assert line[0] == marker[0];
  }

  lemma ItemOpens(x: string)
    requires "- " <= x
    ensures TrimPrefix(x, "- ") == x[2..] && x != "" && !("#" <= x) && !(";" <= x) && !("//" <= x)
  {
    assert x[0] == '-';
  }

  // ---------- whole lists ----------

  lemma {:induction false} ListMeans(ws: seq<Written>, group: string)
    requires forall i :: 0 <= i < |ws| ==> Fits(ws[i])
    ensures ListRules(Raws(ws), group) == RulesIn(ws, group) && ListSkips(Raws(ws)) == SkipsIn(ws)
  {
    hide ParseLine, Fits, Raw, RuleOf, SkipOf, ListingOf;
    if ws != [] {
      var n := |ws| - 1;
      ListMeans(ws[..n], group);
      LineMeans(ws[n], group);
      assert Raws(ws)[..n] == Raws(ws[..n]);
    }
  }

  lemma RawHasNoBreak(w: Written)
    requires Fits(w)
    ensures '\n' !in Raw(w)
  {
    if w.content.Plain? { JoinHasNoBreak(FieldsOf(w.content.listing)); }
    if w.content.Item? { JoinHasNoBreak(FieldsOf(w.content.listing)); }
    hide Trimmed, Join;
  }

  lemma {:induction false} JoinHasNoBreak(fields: seq<string>)
    requires forall i :: 0 <= i < |fields| ==> FieldFits(fields[i])
    ensures '\n' !in Join(fields, ",")
  {
    if |fields| > 1 { JoinHasNoBreak(fields[1..]); }
  }

  /**
    A list written in the format gives exactly the rules it lists, in order, and reports exactly the single
    words that are no catch-all: blank lines, remarks, line ends and YAML dressing change nothing.
   */
  lemma ListSays(ws: seq<Written>, data: string, group: string)
    requires ws != [] && (forall i :: 0 <= i < |ws| ==> Fits(ws[i])) && data == Join(Raws(ws), "\n")
    ensures ListRules(Split(data, '\n'), group) == RulesIn(ws, group) && ListSkips(Split(data, '\n')) == SkipsIn(ws)
  {
    hide Fits, Raw, ListRules, ListSkips, RulesIn, SkipsIn, Split, Join;
    forall i | 0 <= i < |ws|
      ensures '\n' !in Raws(ws)[i]
    {
      RawHasNoBreak(ws[i]);
    }
    SplitJoin(Raws(ws), '\n');
    ListMeans(ws, group);
  }
}
