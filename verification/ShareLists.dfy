/**
  Lists of share links: what GenerateV2ray prints (internal/generator/v2ray.go) and what Parse reads
  (internal/parser/parser.go). Readers of the other formats and schemes are parameters.
 */
module ShareLists {
  import opened Wrappers
  import opened Text
  import opened Values
  import opened Accessors
  import opened UniqueNames
  import opened Base64
  import opened Formats
  import SSLinks
  import SSRLinks

  // ---------- printing ----------

  /** Share links of the protocols this model leaves open. */
  type OtherLinks = Node -> Option<string>

  function LinkOf(n: Node, other: OtherLinks): Option<string>
  {
    if n.typ == "ss" then Some(SSLinks.Link(n))
    else if n.typ == "ssr" then Some(SSRLinks.Link(n))
    else other(n)
  }

  function LinksOf(nodes: seq<Node>, other: OtherLinks): seq<string>
  {
    if nodes == [] then [] else
    var n := |nodes| - 1;
    var link := LinkOf(nodes[n], other);
    LinksOf(nodes[..n], other) + if link.Some? then [link.value] else []
  }

  function SkipsOf(nodes: seq<Node>, other: OtherLinks): seq<string>
  {
    if nodes == [] then [] else
    var n := |nodes| - 1;
    SkipsOf(nodes[..n], other)
      + if LinkOf(nodes[n], other).None? then [nodes[n].name + " (" + nodes[n].typ + ": no share-link form)"] else []
  }

  function Output(nodes: seq<Node>, other: OtherLinks): string { Encode(STD, Join(LinksOf(nodes, other), "\n")) }

  method NodeShareLink(n: Node, other: OtherLinks) returns (link: Option<string>)
    ensures link == LinkOf(n, other)
  {
    match n.typ {
      case "ss" =>
        var l := SSLinks.ShareLink(n);
        link := Some(l);
      case "ssr" =>
        var l := SSRLinks.ShareLink(n);
        link := Some(l);
      case _ => link := other(n);
    }
  }

  /** GenerateV2ray, on nodes as prepareNodes leaves them. */
  method GenerateV2ray(nodes: seq<Proxy>, other: OtherLinks) returns (output: string, skipped: seq<string>)
    ensures output == Output(Views(nodes), other) && skipped == SkipsOf(Views(nodes), other)
  {
    hide LinkOf, Encode, Join;
    var links: seq<string> := [];
    skipped := [];
    for i := 0 to |nodes|
      invariant links == LinksOf(Views(nodes)[..i], other) && skipped == SkipsOf(Views(nodes)[..i], other)
    {
      var n := Node(nodes[i].Name, nodes[i].Type, nodes[i].Server, nodes[i].Port, nodes[i].Clash);
      assert Views(nodes)[..i + 1][..i] == Views(nodes)[..i] && Views(nodes)[i] == n;
      var link := NodeShareLink(n, other);
      if link.None? {
        skipped := skipped + [n.name + " (" + n.typ + ": no share-link form)"];
        continue;
      }
      links := links + [link.value];
    }
    assert Views(nodes)[..|nodes|] == Views(nodes);
    output := Encode(STD, Join(links, "\n"));
  }

  // ---------- reading ----------

  const SCHEMES: seq<string> := [
    "hysteria2://", "hysteria://", "wireguard://", "socks5h://", "socks4a://", "socks5://", "socks4://", "socks://",
    "trojan://", "anytls://", "vmess://", "vless://", "tuic://", "ssr://", "ss://", "hy2://", "hy://", "wg://",
        "tg://socks"]

  function FirstScheme(schemes: seq<string>, lower: string): string
  {
    if schemes == [] then "" else if schemes[0] <= lower then schemes[0] else FirstScheme(schemes[1..], lower)
  }

  function MatchScheme(s: string): string { FirstScheme(SCHEMES, ToLower(s)) }

  datatype Document = Document(nodes: seq<Node>, skipped: seq<string>) | Unreadable

  /** The readers of structured documents, and of links of other schemes. */
  datatype Readers = Readers(clash: string -> Document, singbox: string -> Document, surge: string -> Document,
                             link: (string, string) -> Option<Node>)

  function Dispatch(r: Readers, line: string): Option<Node>
  {
    var scheme := MatchScheme(line);
    if scheme == "" then None
    else if scheme == "ss://" then SSLinks.Parsed(line)
    else if scheme == "ssr://" then SSRLinks.Parsed(line)
    else r.link(scheme, line)
  }

  function LineOf(raw: string): string { TrimSpace(TrimRightSet(raw, {'\r'})) }

  predicate IsBlank(line: string) { line == "" || "#" <= line }

  function NodesIn(r: Readers, lines: seq<string>): seq<Node>
  {
    if lines == [] then [] else
    var line := LineOf(lines[|lines| - 1]);
    var node := Dispatch(r, line);
    NodesIn(r, lines[..|lines| - 1]) + if !IsBlank(line) && node.Some? then [node.value] else []
  }

  function SkippedIn(r: Readers, lines: seq<string>): seq<string>
  {
    if lines == [] then [] else
    var line := LineOf(lines[|lines| - 1]);
    SkippedIn(r, lines[..|lines| - 1]) + if !IsBlank(line) && Dispatch(r, line).None? then [line] else []
  }

  function Compact(s: string): string
  {
    if s == "" then "" else (if s[0] in {'\n', '\r', ' ', '\t'} then "" else [s[0]]) + Compact(s[1..])
  }

  /** What a decoded body must look like to be taken. */
  predicate IsSubscription(d: string) { Contains(d, "://") || LooksStructured(d) }

  function FirstBody(variants: seq<Encoding>, s: string): Option<string>
  {
    if variants == [] then None
    else
      var d := Decode(variants[0], s);
      if d.Some? && IsSubscription(d.value) then d else FirstBody(variants[1..], s)
  }

  function TryBase64(s: string): Option<string> { FirstBody(VARIANTS, Compact(s)) }

  /** A structured document is handed to its reader, the formats tried in this order. */
  function Structured(r: Readers, text: string): Option<Document>
  {
    if LooksLikeClash(text) then Some(r.clash(text))
    else if LooksLikeSingbox(text) then Some(r.singbox(text))
    else if LooksLikeSurge(text) then Some(r.surge(text))
    else None
  }

  function Parse(r: Readers, payload: string): Document
  {
    var text := TrimSpace(payload);
    var direct := Structured(r, text);
    if direct.Some? then direct.value
    else
      var body := TryBase64(text);
      var inner := if body.Some? then Structured(r, body.value) else None;
      if inner.Some? then inner.value
      else
        var lines := Split(if body.Some? then body.value else text, '\n');
        Document(NodesIn(r, lines), SkippedIn(r, lines))
  }

  method TryDecode(s: string) returns (body: Option<string>)
    ensures body == TryBase64(s)
  {
    hide Decode, IsSubscription, Compact;
    var compact := Compact(s);
    var variants := [STD, RAW_STD, URL, RAW_URL];
    for i := 0 to |variants|
      invariant FirstBody(variants, compact) == FirstBody(variants[i..], compact)
    {
      var d := Decode(variants[i], compact);
      if d.Some? && IsSubscription(d.value) {
        return d;
      }
      assert variants[i..][1..] == variants[i + 1..];
    }
    return None;
  }

  /** dispatch; the other schemes' readers give values, of which objects are made. */
  method DispatchLine(r: Readers, line: string) returns (p: Proxy?)
    ensures p == null <==> Dispatch(r, line) == None
    ensures p != null ==> fresh(p) && Dispatch(r, line) == Some(p.View())
  {
    hide SSLinks.Parsed, SSRLinks.Parsed, MatchScheme;
    var scheme := MatchScheme(line);
    if scheme == "" {
      return null;
    }
    if scheme == "ss://" {
      p := SSLinks.ParseSS(line);
    } else if scheme == "ssr://" {
      p := SSRLinks.ParseSSR(line);
    } else {
      var n := r.link(scheme, line);
      if n.None? {
        return null;
      }
      p := new Proxy.Of(n.value);
    }
  }

  /** The link list of Parse. */
  method ParseLines(r: Readers, body: string) returns (nodes: seq<Proxy>, skipped: seq<string>)
    ensures Views(nodes) == NodesIn(r, Split(body, '\n')) && skipped == SkippedIn(r, Split(body, '\n'))
    ensures forall k :: 0 <= k < |nodes| ==> fresh(nodes[k])
  {
    hide Split, LineOf, Dispatch;
    nodes, skipped := [], [];
    var lines := Split(body, '\n');
    for i := 0 to |lines|
      invariant Views(nodes) == NodesIn(r, lines[..i]) && skipped == SkippedIn(r, lines[..i])
      invariant forall k :: 0 <= k < |nodes| ==> fresh(nodes[k])
    {
      assert lines[..i + 1][..i] == lines[..i];
      var line := LineOf(lines[i]);
      if line == "" || "#" <= line {
        continue;
      }
      var p := DispatchLine(r, line);
      if p == null {
        skipped := skipped + [line];
        continue;
      }
      ViewsSnoc(nodes, p);
      nodes := nodes + [p];
    }
    assert lines[..|lines|] == lines;
  }

  // ---------- the round trip ----------

  predicate Fits(n: Node) { if n.typ == "ss" then SSLinks.Fits(n) else n.typ == "ssr" && SSRLinks.Fits(n) }

  function Carried(n: Node): Node { if n.typ == "ss" then SSLinks.Carried(n) else SSRLinks.Carried(n) }

  function AllCarried(nodes: seq<Node>): (r: seq<Node>)
    ensures |r| == |nodes|
  {
    seq(|nodes|, i requires 0 <= i < |nodes| => Carried(nodes[i]))
  }

  /** A line that only the link reader can take. */
  predicate LinkLine(l: string)
  {
    && ("ss://" <= l || "ssr://" <= l) && '\n' !in l && IsBytes(l) && IsGraph(l[|l| - 1])
    && SSLinks.NoListAfterEquals(l)
  }

  function OneLink(n: Node): string { if n.typ == "ss" then SSLinks.Link(n) else SSRLinks.Link(n) }

  lemma LinkLines(n: Node)
    requires Fits(n)
    ensures LinkLine(OneLink(n))
  {
    if n.typ == "ss" {
      SSLinks.LinkShape(n);
    } else {
      SSRLinks.LinkShape(n);
    }
    hide SSLinks.Link, SSRLinks.Link, SSLinks.Fits, SSRLinks.Fits;
  }

  lemma SchemeOf(l: string)
    ensures "ss://" <= l ==> MatchScheme(l) == "ss://"
    ensures "ssr://" <= l ==> MatchScheme(l) == "ssr://"
  {
    var lower := ToLower(l);
    if "ss://" <= l {
      assert lower[..5] == "ss://";
      SchemeOfSS(lower);
    }
    if "ssr://" <= l {
      assert lower[..6] == "ssr://";
      SchemeOfSSR(lower);
    }
  }

  lemma OthersStartElsewhere()
    ensures forall i :: 0 <= i < 13 ==> |SCHEMES[i]| >= 2 && (SCHEMES[i][0] != 's' || SCHEMES[i][1] != 's')
  {
  }

  lemma NotPrefix(a: string, s: string)
    requires |a| >= 2 && |s| >= 2 && (a[0] != s[0] || a[1] != s[1])
    ensures !(a <= s)
  {
  }

  lemma SchemeOfSSR(lower: string)
    requires "ssr://" <= lower
    ensures FirstScheme(SCHEMES, lower) == "ssr://"
  {
    OthersStartElsewhere();
    forall i | 0 <= i < 13
      ensures !(SCHEMES[i] <= lower)
    {
      NotPrefix(SCHEMES[i], lower);
    }
    SkipSchemes(SCHEMES, lower, 13);
    assert SCHEMES[13] == "ssr://";
  }

  lemma SchemeOfSS(lower: string)
    requires "ss://" <= lower
    ensures FirstScheme(SCHEMES, lower) == "ss://"
  {
    OthersStartElsewhere();
    forall i | 0 <= i < 14
      ensures !(SCHEMES[i] <= lower)
    {
      if i < 13 { NotPrefix(SCHEMES[i], lower); } else { assert SCHEMES[13][2] == 'r' && lower[2] == ':'; }
    }
    SkipSchemes(SCHEMES, lower, 14);
    assert SCHEMES[14] == "ss://";
  }

  /** Schemes that do not start the text are passed over. */
  lemma {:induction false} SkipSchemes(schemes: seq<string>, lower: string, k: nat)
    requires k < |schemes| && forall i :: 0 <= i < k ==> !(schemes[i] <= lower)
    ensures FirstScheme(schemes, lower) == FirstScheme(schemes[k..], lower)
  {
    if k > 0 {
      SkipSchemes(schemes[1..], lower, k - 1);
      assert schemes[1..][k - 1..] == schemes[k..];
    }
  }

  lemma LineReads(r: Readers, n: Node)
    requires Fits(n)
    ensures LineOf(OneLink(n)) == OneLink(n) && !IsBlank(OneLink(n)) && Dispatch(r, OneLink(n)) == Some(Carried(n))
  {
    hide SSLinks.Link, SSRLinks.Link, SSLinks.Parsed, SSRLinks.Parsed, SSLinks.Carried, SSRLinks.Carried, TrimSpace,
        MatchScheme,
      SSLinks.Fits, SSRLinks.Fits;
    var l := OneLink(n);
    LinkLines(n);
    SchemeOf(l);
    LinkStarts(l);
    GraphIsTrimmed(l);
    assert TrimRightSet(l, {'\r'}) == l;
    hide TrimRightSet;
    if n.typ == "ss" {
      SSLinks.LinkRead(n);
    } else {
      SSRLinks.LinkRead(n);
    }
    TypeOfLink(n);
  }

  lemma TypeOfLink(n: Node)
    ensures if n.typ == "ss" then "ss://" <= OneLink(n) else "ssr://" <= OneLink(n)
  {
    SSLinks.LinkParts(n);
    hide SSLinks.Middle, SSLinks.EncodeFragment, SSLinks.Link, Encode, SSRLinks.BodyText;
  }

  lemma LinkStarts(l: string)
    requires "ss://" <= l || "ssr://" <= l
    ensures |l| >= 5 && l[0] == 's' && IsGraph(l[0])
  {
  }

  function OneLinks(nodes: seq<Node>): (r: seq<string>)
    ensures |r| == |nodes| && forall i :: 0 <= i < |nodes| ==> r[i] == OneLink(nodes[i])
  {
    seq(|nodes|, i requires 0 <= i < |nodes| => OneLink(nodes[i]))
  }

  lemma {:induction false} AllLinked(nodes: seq<Node>, other: OtherLinks)
    requires forall i :: 0 <= i < |nodes| ==> Fits(nodes[i])
    ensures LinksOf(nodes, other) == OneLinks(nodes) && SkipsOf(nodes, other) == []
  {
    hide SSLinks.Link, SSRLinks.Link, SSLinks.Fits, SSRLinks.Fits;
    if nodes != [] {
      var n := |nodes| - 1;
      assert Fits(nodes[n]);
      AllLinked(nodes[..n], other);
      assert OneLinks(nodes) == OneLinks(nodes[..n]) + [OneLink(nodes[n])];
    }
  }

  lemma {:induction false} AllRead(r: Readers, nodes: seq<Node>)
    requires forall i :: 0 <= i < |nodes| ==> Fits(nodes[i])
    ensures NodesIn(r, OneLinks(nodes)) == AllCarried(nodes) && SkippedIn(r, OneLinks(nodes)) == []
  {
    hide OneLink, Carried, Fits, Dispatch, LineOf, IsBlank;
    if nodes != [] {
      var n := |nodes| - 1;
      AllRead(r, nodes[..n]);
      LineReads(r, nodes[n]);
      assert OneLinks(nodes)[..n] == OneLinks(nodes[..n]);
      assert AllCarried(nodes) == AllCarried(nodes[..n]) + [Carried(nodes[n])];
    }
  }

  /** The body of joined links: it is a link list and nothing else. */
  lemma BodyIsPlain(lines: seq<string>)
    requires |lines| >= 1 && forall i :: 0 <= i < |lines| ==> LinkLine(lines[i])
    ensures var body := Join(lines, "\n");
            && IsBytes(body) && Contains(body, "://") && TrimSpace(body) == body && !LooksStructured(body)
            && Split(body, '\n') == lines
  {
    hide Join, Split, IsSurgeLine, LooksLikeClash, LooksStructured, Contains, TrimSpace, LinkLine;
    var body := Join(lines, "\n");
    LinesAreLinks(lines);
    SplitJoin(lines, '\n');
    NoClashHeader(lines);
    JoinEnds(lines);
    HasScheme(body);
    StartsWithS(body);
    GraphIsTrimmed(body);
    IsNoDocument(body);
  }

  lemma IsNoDocument(body: string)
    requires !LooksLikeClash(body) && TrimSpace(body) == body && !("{" <= body) && !("[" <= body)
    requires forall i :: 0 <= i < |Split(body, '\n')| ==> !IsSurgeLine(Split(body, '\n')[i])
    ensures !LooksStructured(body)
  {
    hide Split, IsSurgeLine, LooksLikeClash, Contains, TrimSpace;
  }

  lemma StartsWithS(body: string)
    requires "ss://" <= body || "ssr://" <= body
    ensures |body| >= 5 && body[0] == 's' && !("{" <= body) && !("[" <= body) && !("[\"" <= body)
  {
  }

  lemma LinesAreLinks(lines: seq<string>)
    requires forall i :: 0 <= i < |lines| ==> LinkLine(lines[i])
    ensures forall i :: 0 <= i < |lines| ==>
      lines[i] != "" && lines[i][0] == 's' && '\n' !in lines[i] && !IsSurgeLine(lines[i])
  {
    forall i | 0 <= i < |lines|
      ensures lines[i] != "" && lines[i][0] == 's' && '\n' !in lines[i] && !IsSurgeLine(lines[i])
    {
      LinkStarts(lines[i]);
      LinkIsNotSurge(lines[i]);
    }
    hide IsSurgeLine;
  }

  lemma HasScheme(body: string)
    requires "ss://" <= body || "ssr://" <= body
    ensures Contains(body, "://")
  {
    if "ss://" <= body {
      assert body[..5] == "ss://" && body[2..][..3] == body[2..5] == "://";
      assert "://" <= body[2..];
    } else {
      assert body[..6] == "ssr://" && body[3..][..3] == body[3..6] == "://";
      assert "://" <= body[3..];
    }
  }

  lemma LinkIsNotSurge(l: string)
    requires LinkLine(l)
    ensures !IsSurgeLine(l)
  {
    LinkStarts(l);
    GraphIsTrimmed(l);
    hide TrimSpace, IsSurgeLine;
    assert ToLower(l)[0] == 's';
    NotSurgeLine(l);
  }

  lemma {:induction false} JoinEnds(lines: seq<string>)
    requires |lines| >= 1 && forall i :: 0 <= i < |lines| ==> LinkLine(lines[i])
    ensures var body := Join(lines, "\n");
            && ("ss://" <= body || "ssr://" <= body) && IsBytes(body) && IsGraph(body[|body| - 1])
  {
    assert LinkLine(lines[0]);
    if |lines| > 1 {
      JoinEnds(lines[1..]);
      var rest := Join(lines[1..], "\n");
      assert Join(lines, "\n") == lines[0] + ("\n" + rest);
    }
    hide SSLinks.NoListAfterEquals;
  }

  /** Encoded text is no structured document, and nothing in it is taken out. */
  lemma CodeIsPlain(text: string)
    requires AllCode(false, text)
    ensures TrimSpace(text) == text && Compact(text) == text && !LooksStructured(text)
  {
    hide *;
    CodeIsTrimmed(false, text);
    CompactCode(text);
    CodeChars(text);
    PlainIsUnstructured(text);
  }

  lemma PlainIsUnstructured(text: string)
    requires TrimSpace(text) == text
    requires '\n' !in text && ':' !in text && ',' !in text && '{' !in text && '[' !in text
    ensures !LooksStructured(text)
  {
    hide TrimSpace, Contains, IsSurgeLine, Split;
    assert !("{" <= text) && !("[" <= text) by {
      assert text != "" ==> text[0] in text;
    }
    NotContained(text, "\nproxies:");
    ProxiesHasColon(text);
    CodeIsNotSurge(text);
    CutAtLines(text);
  }

  lemma ProxiesHasColon(text: string)
    ensures "proxies:" <= text ==> ':' in text
  {
    if "proxies:" <= text { assert text[7] == ':'; }
  }

  lemma HeaderHasBracket(text: string)
    ensures ToLower(text) == "[proxy]" ==> '[' in text
  {
    if ToLower(text) == "[proxy]" { assert ToLower(text)[0] == '[' && LowerChar(text[0]) == '['; }
  }

  lemma CutAtLines(text: string)
    requires '\n' !in text
    ensures Split(text, '\n') == [text]
  {
  }

  lemma CodeChars(text: string)
    requires AllCode(false, text)
    ensures '\n' !in text && ':' !in text && ',' !in text && '{' !in text && '[' !in text
  {
    forall i | 0 <= i < |text|
      ensures text[i] !in {'\n', ':', ',', '{', '['}
    {
      assert IsCode(false, text[i]);
    }
  }

  lemma CodeIsNotSurge(text: string)
    requires ',' !in text && '[' !in text && TrimSpace(text) == text
    ensures !IsSurgeLine(text)
  {
    hide TrimSpace, IsSurgeLine;
    HeaderHasBracket(text);
    NotSurgeLine(text);
  }

  lemma {:induction false} CompactCode(text: string)
    requires AllCode(false, text)
    ensures Compact(text) == text
  {
    if text != "" {
      assert IsCode(false, text[0]);
      CompactCode(text[1..]);
      assert [text[0]] + text[1..] == text;
    }
  }

  /**
    Printing a non-empty list of well-formed ss and ssr nodes and reading it gives, in the same order
    and with nothing skipped, the nodes the links stand for.
   */
  lemma ListRoundTrip(r: Readers, nodes: seq<Node>, other: OtherLinks)
    requires nodes != [] && forall i :: 0 <= i < |nodes| ==> Fits(nodes[i])
    ensures SkipsOf(nodes, other) == []
    ensures Parse(r, Output(nodes, other)) == Document(AllCarried(nodes), [])
  {
    hide LinkLine, OneLink, Fits, Join, Encode, Decode, LooksStructured, LinksOf, NodesIn, SkippedIn, Parse, Compact,
        TrimSpace, Contains, Split;
    var lines := OneLinks(nodes);
    AllLinked(nodes, other);
    AllRead(r, nodes);
    forall i | 0 <= i < |lines|
      ensures LinkLine(lines[i])
    {
      LinkLines(nodes[i]);
    }
    BodyIsPlain(lines);
    var body := Join(lines, "\n");
    var text := Encode(STD, body);
    EncodeIsCode(STD, body);
    CodeIsPlain(text);
    DecodeEncode(STD, body);
    ParseEncoded(r, text, body);
  }

  predicate SameFields(n: Node, d: Node)
  {
    n.name == d.name && n.typ == d.typ
    && if n.typ == "ss" then SSLinks.SameFields(n.clash, d.clash) else SSRLinks.SameFields(n.clash, d.clash)
  }

  /** What a node must be for its link to hold all of it. */
  predicate LinkHolds(n: Node) { (n.typ == "ss" ==> SSLinks.PluginFits(n.clash)) && ReadFlags(n.clash) }

  lemma SameFieldsIff(n: Node)
    requires Fits(n)
    ensures SameFields(Carried(n), n) <==> LinkHolds(n)
  {
    hide CS, CI, CB, CMap;
    if n.typ == "ss" {
      SSLinks.FieldsSurviveIff(n);
      SSLinks.FieldsSurvive(n, "server");
      CarriedTypes(n);
    } else {
      SSRLinks.FieldsSurviveIff(n);
      SSRLinks.FieldsSurvive(n, "server");
      CarriedTypes(n);
    }
    hide SSLinks.Carried, SSRLinks.Carried, SSLinks.SameFields, SSRLinks.SameFields, SSLinks.PluginFits, ReadFlags,
        SSLinks.Fits, SSRLinks.Fits;
  }

  lemma CarriedTypes(n: Node)
    requires n.typ == "ss" || n.typ == "ssr"
    ensures Carried(n).typ == n.typ
  {
  }

  /** These are the nodes, with nothing skipped, place by place with every connection field. */
  ghost predicate HasAll(d: Document, nodes: seq<Node>)
  {
    d.Document? && d.skipped == [] && |d.nodes| == |nodes|
    && forall i :: 0 <= i < |nodes| ==> SameFields(d.nodes[i], nodes[i])
  }

  /**
    Reading a printed list gives the printed nodes with every connection field exactly when every node
    is one whose link holds all of it.
   */
  lemma ListKeepsFieldsIff(r: Readers, nodes: seq<Node>, other: OtherLinks)
    requires nodes != [] && forall i :: 0 <= i < |nodes| ==> Fits(nodes[i])
    ensures HasAll(Parse(r, Output(nodes, other)), nodes) <==> forall i :: 0 <= i < |nodes| ==> LinkHolds(nodes[i])
  {
    hide Fits, Carried, SameFields, LinkHolds, Output, Parse;
    ListRoundTrip(r, nodes, other);
    forall i | 0 <= i < |nodes|
      ensures SameFields(AllCarried(nodes)[i], nodes[i]) <==> LinkHolds(nodes[i])
    {
      SameFieldsIff(nodes[i]);
    }
  }

  /** Base64 text over a plain link list is read as that list. */
  lemma ParseEncoded(r: Readers, text: string, body: string)
    requires TrimSpace(text) == text && Compact(text) == text && !LooksStructured(text)
    requires Decode(STD, text) == Some(body) && Contains(body, "://") && !LooksStructured(body)
    ensures Parse(r, text) == Document(NodesIn(r, Split(body, '\n')), SkippedIn(r, Split(body, '\n')))
  {
    hide Decode, LooksLikeClash, LooksLikeSingbox, LooksLikeSurge, NodesIn, SkippedIn, Compact, TrimSpace, Contains,
        Split;
    assert VARIANTS[0] == STD;
    assert TryBase64(text) == Some(body);
  }
}
