/** The list-only output and its reader. */
module SurgeLists {
  import opened Text
  import opened Values
  import opened Accessors
  import opened UniqueNames
  import opened LinkText
  import opened SurgeLines
  import opened Wrappers

  // ---------- printing ----------

  function SectionText(nodes: seq<Node>, other: OtherLines): string
  {
    if nodes == [] then "[Proxy]\n" else
    var n := |nodes| - 1;
    var line := LineOf(nodes[n], other);
    SectionText(nodes[..n], other) + if line.Some? then line.value + "\n" else ""
  }

  /** The list-only output, on nodes as prepareNodes leaves them. */
  method GenerateList(nodes: seq<Proxy>, other: OtherLines) returns (output: string)
    ensures output == SectionText(Views(nodes), other)
  {
    hide LineOf;
    output := "[Proxy]\n";
    for i := 0 to |nodes|
      invariant output == SectionText(Views(nodes)[..i], other)
    {
      var n := Node(nodes[i].Name, nodes[i].Type, nodes[i].Server, nodes[i].Port, nodes[i].Clash);
      assert Views(nodes)[..i + 1][..i] == Views(nodes)[..i] && Views(nodes)[i] == n;
      var line := NodeLine(n, other);
      if line.Some? {
        output := output + (line.value + "\n");
      } else {
        assert output + "" == output;
      }
    }
    assert Views(nodes)[..|nodes|] == Views(nodes);
  }

  // ---------- reading ----------

  predicate IsHeader(line: string) { "[" <= line && HasSuffix(line, "]") }

  predicate HasSections(lines: seq<string>) { exists i :: 0 <= i < |lines| && IsHeader(TrimSpace(lines[i])) }

  /** The first pass of parseSurge: whether any line is a section header. */
  method FindSections(lines: seq<string>) returns (has: bool)
    ensures has == HasSections(lines)
  {
    hide TrimSpace, IsHeader;
    has := false;
    for i := 0 to |lines|
      invariant !has && forall k :: 0 <= k < i ==> !IsHeader(TrimSpace(lines[k]))
    {
      if IsHeader(TrimSpace(lines[i])) {
        return true;
      }
    }
  }

  predicate IsComment(line: string) { "#" <= line || ";" <= line || "//" <= line }

  function Cleaned(raw: string): string { TrimSpace(TrimRightSet(raw, {'\r'})) }

  lemma HeaderSize(line: string)
    requires IsHeader(line)
    ensures |line| >= 2
  {
    assert line[0] == '[';
    assert line[|line| - 1] == line[|line| - 1..][0] == ']';
  }

  function SectionName(line: string): string
    requires IsHeader(line)
  {
    HeaderSize(line);
    ToLower(TrimSpace(line[1..|line| - 1]))
  }

  datatype Scan = Scan(inProxy: bool, found: seq<string>)

  function ScanStep(s: Scan, has: bool, raw: string): Scan
  {
    var line := Cleaned(raw);
    if line == "" || IsComment(line) then s
    else if has && IsHeader(line) then s.(inProxy := SectionName(line) == "proxy")
    else if has && !s.inProxy then s
    else if '=' in line then s.(found := s.found + [line])
    else s
  }

  function Scanned(lines: seq<string>, has: bool): Scan
  {
    if lines == [] then Scan(false, []) else ScanStep(Scanned(lines[..|lines| - 1], has), has, lines[|lines| - 1])
  }

  method ScanLines(lines: seq<string>, has: bool) returns (proxyLines: seq<string>)
    ensures proxyLines == Scanned(lines, has).found
  {
    hide Cleaned, IsComment, IsHeader, SectionName;
    var inProxySection := false;
    proxyLines := [];
    for i := 0 to |lines|
      invariant Scan(inProxySection, proxyLines) == Scanned(lines[..i], has)
    {
      assert lines[..i + 1][..i] == lines[..i];
      var line := Cleaned(lines[i]);
      if line == "" || IsComment(line) {
        continue;
      }
      if has {
        if IsHeader(line) {
          inProxySection := SectionName(line) == "proxy";
          continue;
        }
        if !inProxySection {
          continue;
        }
      }
      if '=' in line {
        proxyLines := proxyLines + [line];
      }
    }
    assert lines[..|lines|] == lines;
  }

  function NodesIn(lines: seq<string>, other: OtherReader): seq<Node>
  {
    if lines == [] then [] else
    var node := LineRead(lines[|lines| - 1], other);
    NodesIn(lines[..|lines| - 1], other) + if node.Some? then [node.value] else []
  }

  function SkippedIn(lines: seq<string>, other: OtherReader): seq<string>
  {
    if lines == [] then [] else
    var line := lines[|lines| - 1];
    SkippedIn(lines[..|lines| - 1], other) + if LineRead(line, other).None? then [line] else []
  }

  datatype Section = Section(nodes: seq<Node>, skipped: seq<string>)

  /** parseSurge. */
  function Parsed(text: string, other: OtherReader): Section
  {
    var lines := Split(text, '\n');
    var found := Scanned(lines, HasSections(lines)).found;
    Section(NodesIn(found, other), SkippedIn(found, other))
  }

  method ReadLine(line: string, other: OtherReader) returns (p: Proxy?)
    ensures p == null <==> LineRead(line, other) == None
    ensures p != null ==> fresh(p) && LineRead(line, other) == Some(p.View())
  {
    hide Split, NodeRead, TrimSpace, ToLower, AtoiPort;
    var cut := Cut(line, '=');
    if !cut.found {
      return null;
    }
    var rawTokens := Split(cut.after, ',');
    if |rawTokens| < 3 {
      return null;
    }
    p := ParseLine(ToLower(TrimSpace(rawTokens[0])), TrimSpace(cut.before), TrimSpace(rawTokens[1]),
        AtoiPort(rawTokens[2]), rawTokens[3..], other);
  }

  method ParseSurge(text: string, other: OtherReader) returns (nodes: seq<Proxy>, skipped: seq<string>)
    ensures Section(Views(nodes), skipped) == Parsed(text, other)
    ensures forall k :: 0 <= k < |nodes| ==> fresh(nodes[k])
  {
    hide Split, HasSections, Scanned, LineRead, Views;
    var lines := Split(text, '\n');
    var has := FindSections(lines);
    var proxyLines := ScanLines(lines, has);
    nodes, skipped := [], [];
    for i := 0 to |proxyLines|
      invariant Views(nodes) == NodesIn(proxyLines[..i], other) && skipped == SkippedIn(proxyLines[..i], other)
      invariant forall k :: 0 <= k < |nodes| ==> fresh(nodes[k])
    {
      assert proxyLines[..i + 1][..i] == proxyLines[..i];
      var p := ReadLine(proxyLines[i], other);
      if p == null {
        skipped := skipped + [proxyLines[i]];
      } else {
        ViewsSnoc(nodes, p);
        nodes := nodes + [p];
      }
    }
    assert proxyLines[..|proxyLines|] == proxyLines;
  }

  // ---------- the round trip ----------

  /** A line the scan keeps as it is. */
  predicate LineOk(l: string)
  {
    && Cleaned(l) == l && l != "" && !IsComment(l) && !IsHeader(l) && '=' in l && '\n' !in l
  }

  lemma StartThenSpace(s: string, rest: string)
    requires s != "" && SpacePrefix(s) == 0
    ensures SpacePrefix(s + " " + rest) == 0
  {
    var t := s + " " + rest;
    assert forall i :: 0 <= i < |s| ==> t[i] == s[i];
    assert t[|s|] == ' ';
  }

  lemma EndAfterSpace(p: string, part: string)
    requires p != "" && p[|p| - 1] == ' ' && part != "" && SpaceSuffix(part) == 0
    ensures SpaceSuffix(p + part) == 0
  {
    var s := p + part;
    assert forall k :: |p| <= k < |s| ==> s[k] == part[k - |p|];
    assert s[|p| - 1] == ' ';
  }

  lemma LineIsTrimmed(name: string, parts: seq<string>)
    requires name != "" && SpacePrefix(name) == 0 && |parts| >= 2
    requires parts[|parts| - 1] != "" && SpaceSuffix(parts[|parts| - 1]) == 0
    ensures Cleaned(name + " = " + Join(parts, ", ")) == name + " = " + Join(parts, ", ")
  {
    hide Join, SpacePrefix, SpaceSuffix;
    var n := |parts| - 1;
    var line := name + " = " + Join(parts, ", ");
    JoinSnoc(parts[..n], parts[n], ", ");
    assert parts == parts[..n] + [parts[n]];
    var front := name + " = " + (Join(parts[..n], ", ") + ", ");
    assert line == front + parts[n] by { Regroup(name + " = ", Join(parts[..n], ", ") + ", ", parts[n]); }
    EndAfterSpace(front, parts[n]);
    StartThenSpace(name, "= " + Join(parts, ", "));
    assert line == name + " " + ("= " + Join(parts, ", ")) by { SpaceEquals(name, Join(parts, ", ")); }
    CleanedIsFixed(line);
  }

  lemma SpaceEquals(name: string, rest: string)
    ensures name + " = " + rest == name + " " + ("= " + rest)
  {
  }

  lemma CleanedIsFixed(l: string)
    requires Trimmed(l)
    ensures Cleaned(l) == l
  {
    TrimmedIsFixed(l);
    hide TrimSpace;
    assert TrimRightSet(l, {'\r'}) == l;
  }

  lemma {:induction false} JoinAvoids(parts: seq<string>, c: char)
    requires c != ',' && c != ' ' && forall i :: 0 <= i < |parts| ==> c !in parts[i]
    ensures c !in Join(parts, ", ")
  {
    if |parts| > 1 { JoinAvoids(parts[1..], c); }
  }

  /** Nodes whose lines are neither comments nor section headers, and hold no separators out of place. */
  predicate Fits(n: Node) { NodeFits(n) && !IsHeader(OwnLine(n)) }

  lemma OwnLineOk(n: Node)
    requires Fits(n)
    ensures LineOk(OwnLine(n))
  {
    hide FactsOf, CS, CI, Trimmed, FactsFit, TypeOf, PrintedLine, Cleaned, IsHeader, ServerFits;
    var f := FactsOf(n.typ, n.clash).value;
    var server, port := CS(n.clash, "server"), CI(n.clash, "port");
    FactsAreCanonical(n.typ, n.clash);
    PartsText(n.name, f, server, port);
    PrintedOk(n.name, server, port, f);
  }

  lemma PrintedOk(name: string, server: string, port: int, f: Facts)
    requires NameFits(name) && ServerFits(server) && FactsFit(f)
    ensures var l := name + " = " + Join(Parts(f, server, port), ", ");
            Cleaned(l) == l && l != "" && !IsComment(l) && '=' in l && '\n' !in l
  {
    hide Trimmed, FactsFit, TypeOf, Parts, Join, Cleaned, SpacePrefix, SpaceSuffix;
    PartsFit(f, server, port);
    LastPart(f, server, port);
    NameStarts(name);
    var parts := Parts(f, server, port);
    LineIsTrimmed(name, parts);
    JoinAvoids(parts, '\n');
    LineMarks(name, Join(parts, ", "));
    hide IsComment, NameFits;
  }

  lemma PartsText(name: string, f: Facts, server: string, port: int)
    ensures PrintedLine(name, TypeOf(f), server, port, f) == name + " = " + Join(Parts(f, server, port), ", ")
  {
    hide Join;
  }

  lemma NameStarts(name: string)
    requires name != "" && Trimmed(name)
    ensures SpacePrefix(name) == 0
  {
  }

  lemma LineMarks(name: string, rest: string)
    requires NameFits(name) && '\n' !in rest
    ensures var l := name + " = " + rest; l != "" && '=' in l && '\n' !in l && !IsComment(l)
  {
    hide Trimmed;
    var l := name + " = " + rest;
    assert l[|name| + 1] == '=';
    assert l[0] == name[0];
    Slashes(l);
    Slashes(name);
  }

  lemma Slashes(s: string)
    ensures "//" <= s <==> |s| >= 2 && s[0] == '/' && s[1] == '/'
  {
    if |s| >= 2 { assert s[..2] == [s[0], s[1]]; }
  }

  lemma LastPart(f: Facts, server: string, port: int)
    requires FactsFit(f)
    ensures var parts := Parts(f, server, port);
            |parts| >= 4 && parts[|parts| - 1] != "" && SpaceSuffix(parts[|parts| - 1]) == 0
  {
    hide OptsOf, TypeOf, Trimmed, FactsFit, OptText, OptFits, SpaceSuffix;
    OptsFit(f);
    HasOption(f);
    var os := OptsOf(f);
    assert OptOk(os[|os| - 1]);
    OptIsTrimmed(os[|os| - 1]);
    TrimmedEnds(OptText(os[|os| - 1]));
  }

  lemma TrimmedEnds(s: string)
    requires Trimmed(s)
    ensures SpaceSuffix(s) == 0
  {
  }

  lemma HasOption(f: Facts)
    ensures |OptsOf(f)| >= 1
  {
  }

  function OwnLines(nodes: seq<Node>): (r: seq<string>)
    ensures |r| == |nodes|
  {
    seq(|nodes|, i requires 0 <= i < |nodes| => OwnLine(nodes[i]))
  }

  /** The section is its header, the lines, and a last empty line. */
  lemma {:induction false} SectionIsJoined(nodes: seq<Node>, other: OtherLines)
    requires forall i :: 0 <= i < |nodes| ==> FactsOf(nodes[i].typ, nodes[i].clash).Some?
    ensures SectionText(nodes, other) == Join(["[Proxy]"] + OwnLines(nodes) + [""], "\n")
  {
    hide FactsOf, PrintedLine;
    if nodes == [] {
      assert ["[Proxy]"] + OwnLines(nodes) + [""] == ["[Proxy]", ""];
      JoinPair("[Proxy]", "", "\n");
      assert "[Proxy]" + "\n" + "" == "[Proxy]\n";
    } else {
      var n := |nodes| - 1;
      SectionIsJoined(nodes[..n], other);
      var front := ["[Proxy]"] + OwnLines(nodes[..n]);
      var line := OwnLine(nodes[n]);
      assert OwnLines(nodes) == OwnLines(nodes[..n]) + [line];
      assert ["[Proxy]"] + OwnLines(nodes) + [""] == (front + [line]) + [""];
      hide OwnLine, OwnLines, Join;
      JoinSnoc(front, "", "\n");
      JoinSnoc(front, line, "\n");
      JoinSnoc(front + [line], "", "\n");
      AddLine(Join(front, "\n"), line);
    }
  }

  lemma AddLine(a: string, line: string)
    ensures a + "\n" + "" + (line + "\n") == a + "\n" + line + "\n" + ""
  {
  }

  lemma JoinPair(a: string, b: string, sep: string)
    ensures Join([a, b], sep) == a + sep + b
  {
    JoinOne(a, sep);
    JoinSnoc([a], b, sep);
    assert [a] + [b] == [a, b];
  }

  lemma {:induction false} ScanKeeps(lines: seq<string>)
    requires forall i :: 0 <= i < |lines| ==> LineOk(lines[i])
    ensures Scanned(["[Proxy]"] + lines, true) == Scan(true, lines)
  {
    hide Cleaned, IsComment, IsHeader;
    if lines == [] {
      HeaderScans();
      assert ["[Proxy]"] + lines == ["[Proxy]"] && ["[Proxy]"][..0] == [];
    } else {
      var n := |lines| - 1;
      ScanKeeps(lines[..n]);
      assert (["[Proxy]"] + lines)[..n + 1] == ["[Proxy]"] + lines[..n];
      assert (["[Proxy]"] + lines)[n + 1] == lines[n];
      assert LineOk(lines[n]);
      assert lines[..n] + [lines[n]] == lines;
    }
  }

  lemma HeaderScans()
    ensures ScanStep(Scan(false, []), true, "[Proxy]") == Scan(true, []) && IsHeader(TrimSpace("[Proxy]"))
  {
    GraphIsTrimmed("[Proxy]");
    CleanedIsFixed("[Proxy]");
    GraphIsTrimmed("Proxy");
    hide TrimSpace, Cleaned;
    assert "[Proxy]"[1..6] == "Proxy" && ToLower("Proxy") == "proxy";
    assert "[Proxy]"[6..] == "]";
  }

  /** What the reader finds in a printed section: the lines, in order. */
  lemma SectionScans(lines: seq<string>)
    requires forall i :: 0 <= i < |lines| ==> LineOk(lines[i])
    ensures var all := ["[Proxy]"] + lines + [""];
            && Split(Join(all, "\n"), '\n') == all && HasSections(all) && Scanned(all, true).found == lines
  {
    var all := ["[Proxy]"] + lines + [""];
    ScanKeeps(lines);
    HeaderScans();
    assert IsHeader(TrimSpace(all[0]));
    NoBreaks(lines);
    SplitJoin(all, '\n');
    assert all[..|all| - 1] == ["[Proxy]"] + lines;
    EmptyScans();
    hide Join, Split, Cleaned, IsComment, IsHeader, TrimSpace, LineOk;
  }

  lemma EmptyScans()
    ensures Cleaned("") == ""
  {
  }

  lemma NoBreaks(lines: seq<string>)
    requires forall i :: 0 <= i < |lines| ==> LineOk(lines[i])
    ensures var all := ["[Proxy]"] + lines + [""]; forall i :: 0 <= i < |all| ==> '\n' !in all[i]
  {
    hide Cleaned, IsComment, IsHeader;
    var all := ["[Proxy]"] + lines + [""];
    forall i | 0 <= i < |all|
      ensures '\n' !in all[i]
    {
      if 0 < i < |all| - 1 { assert all[i] == lines[i - 1] && LineOk(lines[i - 1]); }
    }
  }

  function AgainAll(nodes: seq<Node>, other: OtherReader): seq<Node>
  {
    if nodes == [] then [] else
    var n := |nodes| - 1;
    var p := Again(nodes[n], other);
    AgainAll(nodes[..n], other) + if p.Some? then [p.value] else []
  }

  lemma {:induction false} AllRead(nodes: seq<Node>, other: OtherReader)
    requires forall i :: 0 <= i < |nodes| ==> Fits(nodes[i])
    ensures NodesIn(OwnLines(nodes), other) == AgainAll(nodes, other) && SkippedIn(OwnLines(nodes), other) == []
    ensures |AgainAll(nodes, other)| == |nodes|
  {
    hide *;
    if nodes != [] {
      var n := |nodes| - 1;
      AllRead(nodes[..n], other);
      ReadsOwn(nodes[n], other);
      LastRead(nodes, other);
    } else {
      NothingRead(other);
    }
  }

  lemma NothingRead(other: OtherReader)
    ensures NodesIn(OwnLines([]), other) == AgainAll([], other) == [] && SkippedIn(OwnLines([]), other) == []
  {
  }

  lemma LastRead(nodes: seq<Node>, other: OtherReader)
    requires nodes != []
    ensures var n := |nodes| - 1;
            var p, before := Again(nodes[n], other), OwnLines(nodes[..n]);
            && NodesIn(OwnLines(nodes), other) == NodesIn(before, other) + (if p.Some? then [p.value] else [])
            && SkippedIn(OwnLines(nodes), other) == SkippedIn(before, other)
                + (if p.None? then [OwnLine(nodes[n])] else [])
            && AgainAll(nodes, other) == AgainAll(nodes[..n], other) + if p.Some? then [p.value] else []
  {
    hide LineRead, OwnLine;
    assert OwnLines(nodes)[..|nodes| - 1] == OwnLines(nodes[..|nodes| - 1]);
  }

  lemma ReadsOwn(n: Node, other: OtherReader)
    requires Fits(n)
    ensures FactsOf(n.typ, n.clash).Some? && Again(n, other).Some?
  {
    PrintedAgain(n, other, m => None);
    hide FactsOf, LineRead, PrintedLine, Trimmed, FactsFit, NameFits, ServerFits;
  }

  /** Reading a printed section finds every node, skips nothing, and keeps the order. */
  lemma SectionReads(nodes: seq<Node>, lines: OtherLines, other: OtherReader)
    requires forall i :: 0 <= i < |nodes| ==> Fits(nodes[i])
    ensures Parsed(SectionText(nodes, lines), other) == Section(AgainAll(nodes, other), [])
    ensures |AgainAll(nodes, other)| == |nodes|
  {
    hide Fits, LineOk, OwnLine, Again, AgainAll, NodesIn, SkippedIn, Scanned, HasSections, Split, Join, SectionText,
        FactsOf;
    AllRead(nodes, other);
    forall i | 0 <= i < |nodes|
      ensures FactsOf(nodes[i].typ, nodes[i].clash).Some? && LineOk(OwnLine(nodes[i]))
    {
      OwnLineOk(nodes[i]);
      ReadsOwn(nodes[i], other);
    }
    SectionIsJoined(nodes, lines);
    SectionScans(OwnLines(nodes));
  }

  /** The section that is printed from what was read. */
  function Reprinted(nodes: seq<Node>, lines: OtherLines, other: OtherReader): string
  {
    SectionText(Parsed(SectionText(nodes, lines), other).nodes, lines)
  }

  lemma ReprintsOwn(n: Node, lines: OtherLines, other: OtherReader)
    requires Fits(n) && IsStable(n)
    ensures Again(n, other).Some? && LineOf(Again(n, other).value, lines) == LineOf(n, lines)
  {
    hide NodeFits, Again, IsHeader, LineOf, IsStable, OwnLine;
    LineReproducedIff(n, other, lines);
  }

  lemma {:induction false} StableReprints(nodes: seq<Node>, lines: OtherLines, other: OtherReader)
    requires forall i :: 0 <= i < |nodes| ==> Fits(nodes[i]) && IsStable(nodes[i])
    ensures SectionText(AgainAll(nodes, other), lines) == SectionText(nodes, lines)
  {
    hide Fits, Again, LineOf, IsStable, SectionText;
    if nodes == [] {
      assert AgainAll(nodes, other) == nodes;
    } else {
      var n := |nodes| - 1;
      StableReprints(nodes[..n], lines, other);
      ReprintsOwn(nodes[n], lines, other);
      SectionSnoc(AgainAll(nodes[..n], other), Again(nodes[n], other).value, lines);
      SectionSnoc(nodes[..n], nodes[n], lines);
      assert nodes == nodes[..n] + [nodes[n]];
    }
  }

  lemma SectionSnoc(nodes: seq<Node>, n: Node, lines: OtherLines)
    ensures SectionText(nodes + [n], lines) == SectionText(nodes, lines)
            + if LineOf(n, lines).Some? then LineOf(n, lines).value + "\n" else ""
  {
    hide LineOf;
    assert (nodes + [n])[..|nodes|] == nodes;
  }

  /**
    The proxy section is reproduced exactly, with nothing skipped, when every node is one the reader
    takes whole.
   */
  lemma SectionReproduced(nodes: seq<Node>, lines: OtherLines, other: OtherReader)
    requires forall i :: 0 <= i < |nodes| ==> Fits(nodes[i]) && IsStable(nodes[i])
    ensures Parsed(SectionText(nodes, lines), other).skipped == []
    ensures Reprinted(nodes, lines, other) == SectionText(nodes, lines)
  {
    hide Fits, Again, AgainAll, SectionText, IsStable, Parsed;
    SectionReads(nodes, lines, other);
    StableReprints(nodes, lines, other);
  }

  // -- and only then --

  lemma AgainLine(n: Node, other: OtherReader)
    requires Fits(n)
    ensures var p := Again(n, other);
            && p.Some? && FactsOf(p.value.typ, p.value.clash).Some? && '\n' !in OwnLine(p.value)
            && (OwnLine(p.value) == OwnLine(n) <==> IsStable(n))
  {
    var f := FactsOf(n.typ, n.clash).value;
    var server, port := CS(n.clash, "server"), CI(n.clash, "port");
    PrintedAgain(n, other, m => None);
    LineReproducedIff(n, other, m => None);
    FactsAreCanonical(n.typ, n.clash);
    StableIsReread(f);
    PartsText(n.name, Reread(f), server, port);
    hide FactsOf, CS, CI, Trimmed, FactsFit, TypeOf, PrintedLine, Cleaned, IsHeader, ServerFits, LineRead, Stable,
        Again;
    PrintedOk(n.name, server, port, Reread(f));
  }

  lemma {:induction false} AgainLines(nodes: seq<Node>, other: OtherReader)
    requires forall i :: 0 <= i < |nodes| ==> Fits(nodes[i])
    ensures |AgainAll(nodes, other)| == |nodes|
    ensures forall i :: 0 <= i < |nodes| ==> Some(AgainAll(nodes, other)[i]) == Again(nodes[i], other)
  {
    hide Fits, Again;
    if nodes != [] {
      AgainLines(nodes[..|nodes| - 1], other);
      ReadsOwn(nodes[|nodes| - 1], other);
    }
  }

  /** The lines of a text that is joined from them. */
  lemma SameLines(a: seq<string>, b: seq<string>)
    requires (forall i :: 0 <= i < |a| ==> '\n' !in a[i]) && (forall i :: 0 <= i < |b| ==> '\n' !in b[i])
    requires Join(["[Proxy]"] + a + [""], "\n") == Join(["[Proxy]"] + b + [""], "\n")
    ensures a == b
  {
    var x, y := ["[Proxy]"] + a + [""], ["[Proxy]"] + b + [""];
    assert forall i :: 0 <= i < |x| ==> '\n' !in x[i];
    assert forall i :: 0 <= i < |y| ==> '\n' !in y[i];
    SplitJoin(x, '\n');
    SplitJoin(y, '\n');
    hide Join, Split;
    assert a == x[1..|x| - 1] && b == y[1..|y| - 1];
  }

  /** A printed section of fitting nodes is reproduced exactly if and only if the reader takes every node whole. */
  lemma SectionReproducedIff(nodes: seq<Node>, lines: OtherLines, other: OtherReader)
    requires forall i :: 0 <= i < |nodes| ==> Fits(nodes[i])
    ensures Reprinted(nodes, lines, other) == SectionText(nodes, lines) <==>
            forall i :: 0 <= i < |nodes| ==> IsStable(nodes[i])
  {
    hide Fits, FactsOf, Again, AgainAll, SectionText, IsStable, Parsed, OwnLine, Join, LineOk;
    if forall i :: 0 <= i < |nodes| ==> IsStable(nodes[i]) {
      SectionReproduced(nodes, lines, other);
    }
    if Reprinted(nodes, lines, other) == SectionText(nodes, lines) {
      SectionReads(nodes, lines, other);
      AgainLines(nodes, other);
      var again := AgainAll(nodes, other);
      forall i | 0 <= i < |nodes|
        ensures FactsOf(nodes[i].typ, nodes[i].clash).Some? && '\n' !in OwnLine(nodes[i])
        ensures FactsOf(again[i].typ, again[i].clash).Some? && '\n' !in OwnLine(again[i])
        ensures OwnLine(again[i]) == OwnLine(nodes[i]) <==> IsStable(nodes[i])
      {
        ReadsOwn(nodes[i], other);
        OwnLineOk(nodes[i]);
        LineHasNoBreak(OwnLine(nodes[i]));
        AgainLine(nodes[i], other);
      }
      SectionIsJoined(nodes, lines);
      SectionIsJoined(again, lines);
      SameLines(OwnLines(again), OwnLines(nodes));
      forall i | 0 <= i < |nodes|
        ensures IsStable(nodes[i])
      {
        assert OwnLines(again)[i] == OwnLines(nodes)[i];
      }
    }
  }

  lemma LineHasNoBreak(l: string)
    requires LineOk(l)
    ensures '\n' !in l
  {
  }
}
