/**
  ShadowsocksR share links: written by internal/generator/v2ray.go, read by internal/parser/ssr.go.
  The body is base64 of host:port:protocol:cipher:obfs:password/?query, password and query values
  base64 again.
 */
module SSRLinks {
  import opened Wrappers
  import opened Text
  import opened Decimal
  import opened Values
  import opened Accessors
  import opened Base64
  import opened Percent
  import opened LinkText

  // ---------- writing ----------

  function Raw(s: string): string { Encode(RAW_URL, s) }

  function QueryOf(n: Node): Query
  {
    var op, pp := CS(n.clash, "obfs-param"), CS(n.clash, "protocol-param");
    (if op != "" then [Pair("obfsparam", Raw(op))] else [])
      + (if pp != "" then [Pair("protoparam", Raw(pp))] else [])
      + (if n.name != "" then [Pair("remarks", Raw(n.name))] else [])
  }

  function Head(c: Fields): string
  {
    CS(c, "server") + ":" + Itoa(CI(c, "port")) + ":" + CS(c, "protocol") + ":" + CS(c, "cipher") + ":" + CS(c, "obfs")
        + ":" + Raw(CS(c, "password"))
  }

  function BodyText(n: Node): string
  {
    var q := EncodeQuery(QueryOf(n));
    Head(n.clash) + if q != "" then "/?" + q else ""
  }

  function Link(n: Node): string { "ssr://" + Raw(BodyText(n)) }

  /** The keys come out in byte order however they are set. */
  lemma PutInOrder(a: Query, b: string, c: string)
    requires a == [] || exists v :: a == [Pair("obfsparam", v)]
    ensures Put(a, "protoparam", b) == a + [Pair("protoparam", b)]
    ensures Put(a, "remarks", c) == a + [Pair("remarks", c)]
    ensures Put(a + [Pair("protoparam", b)], "remarks", c) == a + [Pair("protoparam", b), Pair("remarks", c)]
  {
    assert !Less("protoparam", "obfsparam") && !Less("remarks", "obfsparam") && !Less("remarks", "protoparam");
    assert [Pair("protoparam", b)][1..] == [];
    if a != [] { assert a[1..] == [] && (a + [Pair("protoparam", b)])[1..] == [Pair("protoparam", b)]; }
  }

  method ShareLink(n: Node) returns (link: string)
    ensures link == Link(n)
  {
    hide CS, CI, Itoa, Encode, EncodeQuery, Put, Less;
    var c := n.clash;
    var host, port := CS(c, "server"), CI(c, "port");
    var protocol, cipher, obfs := CS(c, "protocol"), CS(c, "cipher"), CS(c, "obfs");
    var passB64 := Encode(RAW_URL, CS(c, "password"));
    var q: Query := [];
    var op := CS(c, "obfs-param");
    if op != "" {
      PutNew("obfsparam", Encode(RAW_URL, op));
      q := Put(q, "obfsparam", Encode(RAW_URL, op));
    }
    ghost var a := q;
    var pp := CS(c, "protocol-param");
    PutInOrder(a, Raw(pp), Raw(n.name));
    if pp != "" {
      q := Put(q, "protoparam", Encode(RAW_URL, pp));
    }
    if n.name != "" {
      q := Put(q, "remarks", Encode(RAW_URL, n.name));
    }
    assert q == QueryOf(n);
    var body := host + ":" + Itoa(port) + ":" + protocol + ":" + cipher + ":" + obfs + ":" + passB64;
    var enc := EncodeQuery(q);
    if enc != "" {
      body := body + ("/?" + enc);
    } else {
      assert body + "" == body;
    }
    return "ssr://" + Encode(RAW_URL, body);
  }

  lemma PutNew(key: string, value: string)
    ensures Put([], key, value) == [Pair(key, value)]
  {
  }

  // ---------- reading ----------

  /** A node as the reader builds it. */
  function SSRNode(name: string, host: string, port: int, cipher: string, password: string, protocol: string,
                   obfs: string,
                   protocolParam: string, obfsParam: string): Node
  {
    var c0 := With(With(Seed("ssr", name, host, port), "cipher", Str(cipher)), "password", Str(password));
    var c1 := With(With(c0, "protocol", Str(protocol)), "obfs", Str(obfs));
    var c2 := With(With(c1, "protocol-param", Str(protocolParam)), "obfs-param", Str(obfsParam));
    Node(name, "ssr", host, port, c2["udp" := Bool(true)])
  }

  datatype Parts = Parts(head: string, query: string)

  function SplitBody(decoded: string): Parts
  {
    var i, j := IndexOf(decoded, "/?"), Index(decoded, '?');
    if i >= 0 then (StartsIn(decoded, i); Parts(decoded[..i], decoded[i + 2..]))
    else if j >= 0 then Parts(decoded[..j], decoded[j + 1..])
    else Parts(decoded, "")
  }

  lemma StartsIn(s: string, i: nat)
    requires i <= |s| && "/?" <= s[i..]
    ensures i + 2 <= |s|
  {
  }

  function NodeOf(f: seq<string>, query: string): Option<Node>
    requires |f| >= 6
  {
    var host, port := f[0], AtoiPort(f[1]);
    var q := ParseQuery(query);
    var name := TrimSpace(B64Text(Get(q, "remarks")));
    if host == "" || port == 0 then None
    else Some(SSRNode(if name == "" then host + ":"
        + Itoa(port) else name, host, port, f[3], B64Text(Join(f[5..], ":")), f[2], f[4],
                      B64Text(Get(q, "protoparam")), B64Text(Get(q, "obfsparam"))))
  }

  function Parsed(uri: string): Option<Node>
  {
    var decoded := B64(TrimPrefix(uri, "ssr://"));
    if decoded.None? then None
    else
      var parts := SplitBody(decoded.value);
      var f := Split(parts.head, ':');
      if |f| < 6 then None else NodeOf(f, parts.query)
  }

  /** parseSSR; null stands for an error. */
  method ParseSSR(uri: string) returns (p: Proxy?)
    ensures p == null <==> Parsed(uri) == None
    ensures p != null ==> fresh(p) && Parsed(uri) == Some(p.View())
  {
    hide B64, B64Text, IndexOf, Index, Split, AtoiPort, ParseQuery, Get, TrimSpace, TrimPrefix, Join, Itoa;
    p := null;
    var raw := TrimPrefix(uri, "ssr://");
    B64TextOf(raw);
    var decoded, ok := B64Decode(raw);
    if !ok {
      return;
    }
    var head, rawQuery := decoded, "";
    var i := IndexOf(decoded, "/?");
    if i >= 0 {
      StartsIn(decoded, i);
      head := decoded[..i];
      rawQuery := decoded[i + 2..];
    } else {
      i := Index(decoded, '?');
      if i >= 0 {
        head := decoded[..i];
        rawQuery := decoded[i + 1..];
      }
    }
    assert SplitBody(decoded) == Parts(head, rawQuery);
    hide SplitBody;
    var parts := Split(head, ':');
    if |parts| < 6 {
      return;
    }
    p := Build(parts, rawQuery);
  }

  method Build(parts: seq<string>, rawQuery: string) returns (p: Proxy?)
    requires |parts| >= 6
    ensures p == null <==> NodeOf(parts, rawQuery) == None
    ensures p != null ==> fresh(p) && NodeOf(parts, rawQuery) == Some(p.View())
  {
    hide B64, B64Text, AtoiPort, ParseQuery, Get, TrimSpace, Join, Itoa, SSRNode;
    p := null;
    var host, port := parts[0], AtoiPort(parts[1]);
    var protocol, cipher, obfs := parts[2], parts[3], parts[4];
    var passEnc := Join(parts[5..], ":");
    var password, _ := B64Decode(passEnc);
    if host == "" || port == 0 {
      return;
    }
    var q := ParseQuery(rawQuery);
    var obfsParam, _ := B64Decode(Get(q, "obfsparam"));
    var protoParam, _ := B64Decode(Get(q, "protoparam"));
    var remarks, _ := B64Decode(Get(q, "remarks"));
    var name := TrimSpace(remarks);
    if name == "" {
      name := host + ":" + Itoa(port);
    }
    p := BuildNode(name, host, port, cipher, password, protocol, obfs, protoParam, obfsParam);
  }

  method BuildNode(name: string, host: string, port: int, cipher: string, password: string, protocol: string,
                   obfs: string,
                   protoParam: string, obfsParam: string) returns (p: Proxy)
    ensures fresh(p) && p.View() == SSRNode(name, host, port, cipher, password, protocol, obfs, protoParam, obfsParam)
  {
    hide With;
    p := new Proxy("ssr", name, host, port);
    p.Set("cipher", Str(cipher));
    p.Set("password", Str(password));
    p.Set("protocol", Str(protocol));
    p.Set("obfs", Str(obfs));
    p.Set("protocol-param", Str(protoParam));
    p.Set("obfs-param", Str(obfsParam));
    p.SetRaw("udp", Bool(true));
  }

  // ---------- what a link carries ----------

  function Carried(n: Node): Node
  {
    var c := n.clash;
    SSRNode(n.name, CS(c, "server"), CI(c, "port"), CS(c, "cipher"), CS(c, "password"), CS(c, "protocol"),
        CS(c, "obfs"),
            CS(c, "protocol-param"), CS(c, "obfs-param"))
  }

  predicate FieldFits(s: string) { IsBytes(s) && ':' !in s && '?' !in s }

  /** Trimmed names, and no separators in the fields that stand between colons. */
  predicate Fits(n: Node)
  {
    var c := n.clash;
    && n.typ == "ssr" && n.name != "" && Trimmed(n.name) && IsBytes(n.name)
    && CS(c, "server") != "" && FieldFits(CS(c, "server")) && IsPort(CI(c, "port"))
    && FieldFits(CS(c, "protocol")) && FieldFits(CS(c, "cipher")) && FieldFits(CS(c, "obfs"))
    && IsBytes(CS(c, "password")) && IsBytes(CS(c, "protocol-param")) && IsBytes(CS(c, "obfs-param"))
  }

  /** A Raw text decodes to what it was made from, the empty one included. */
  lemma RawRead(s: string)
    requires IsBytes(s)
    ensures B64Text(Raw(s)) == s && FieldFits(Raw(s)) && IsBytes(Raw(s))
  {
    B64OfEncode(RAW_URL, s);
    EncodeIsCode(RAW_URL, s);
    hide B64, Encode;
    CodeFits(Raw(s));
  }

  lemma CodeFits(t: string)
    requires AllCode(true, t)
    ensures FieldFits(t)
  {
    forall i | 0 <= i < |t|
      ensures t[i] as int < 256 && t[i] != ':' && t[i] != '?'
    {
      assert IsCode(true, t[i]);
    }
  }

  function HeadFields(c: Fields): seq<string>
  {
    [CS(c, "server"), Itoa(CI(c, "port")), CS(c, "protocol"), CS(c, "cipher"), CS(c, "obfs"), Raw(CS(c, "password"))]
  }

  lemma Join6(a: string, b: string, c: string, d: string, e: string, f: string)
    ensures Join([a, b, c, d, e, f], ":") == a + ":" + b + ":" + c + ":" + d + ":" + e + ":" + f
  {
    hide Join;
    JoinOne(a, ":");
    JoinSnoc([a], b, ":");
    JoinSnoc([a, b], c, ":");
    JoinSnoc([a, b, c], d, ":");
    JoinSnoc([a, b, c, d], e, ":");
    JoinSnoc([a, b, c, d, e], f, ":");
    assert [a] + [b] == [a, b] && [a, b] + [c] == [a, b, c] && [a, b, c] + [d] == [a, b, c, d];
    assert [a, b, c, d] + [e] == [a, b, c, d, e] && [a, b, c, d, e] + [f] == [a, b, c, d, e, f];
  }

  lemma PortFits(port: int)
    ensures FieldFits(Itoa(port))
  {
    ItoaChars(port);
  }

  lemma HeadRead(c: Fields)
    requires FieldFits(CS(c, "server")) && FieldFits(CS(c, "protocol")) && FieldFits(CS(c, "cipher"))
            && FieldFits(CS(c, "obfs"))
    requires IsBytes(CS(c, "password"))
    ensures Split(Head(c), ':') == HeadFields(c) && IsBytes(Head(c)) && '?' !in Head(c)
  {
    RawRead(CS(c, "password"));
    PortFits(CI(c, "port"));
    hide CS, CI, Itoa, Raw;
    ColonFields(CS(c, "server"), Itoa(CI(c, "port")), CS(c, "protocol"), CS(c, "cipher"), CS(c, "obfs"),
        Raw(CS(c, "password")));
  }

  lemma ColonFields(a: string, b: string, c: string, d: string, e: string, f: string)
    requires FieldFits(a) && FieldFits(b) && FieldFits(c) && FieldFits(d) && FieldFits(e) && FieldFits(f)
    ensures var head := a + ":" + b + ":" + c + ":" + d + ":" + e + ":" + f;
            Split(head, ':') == [a, b, c, d, e, f] && IsBytes(head) && '?' !in head
  {
    hide Split, Join;
    SplitJoin([a, b, c, d, e, f], ':');
    Join6(a, b, c, d, e, f);
  }

  lemma QueryRead(n: Node)
    requires n.name != "" && IsBytes(n.name) && IsBytes(CS(n.clash, "protocol-param"))
            && IsBytes(CS(n.clash, "obfs-param"))
    ensures var q := EncodeQuery(QueryOf(n));
            && q != "" && IsBytes(q) && ParseQuery(q) == QueryOf(n)
            && B64Text(Get(QueryOf(n), "remarks")) == n.name
            && B64Text(Get(QueryOf(n), "protoparam")) == CS(n.clash, "protocol-param")
            && B64Text(Get(QueryOf(n), "obfsparam")) == CS(n.clash, "obfs-param")
  {
    hide CS, B64Text, EncodeQuery, ParseQuery, Get, Encode;
    var op, pp := CS(n.clash, "obfs-param"), CS(n.clash, "protocol-param");
    RawRead(op);
    RawRead(pp);
    RawRead(n.name);
    RawNothing();
    var q := QueryOf(n);
    GetParams(op, pp, n.name);
    ParamsAreBytes(op, pp, n.name);
    assert q == Params(op, pp, n.name);
    hide QueryOf, Params, Raw;
    ParseEncoded(q);
    QueryChars(q);
    EscapedIsBytes(EncodeQuery(q));
  }

  lemma RawNothing()
    ensures Raw("") == ""
  {
  }

  lemma ParamsAreBytes(op: string, pp: string, name: string)
    requires IsBytes(Raw(op)) && IsBytes(Raw(pp)) && IsBytes(Raw(name)) && name != ""
    ensures IsBytesQuery(Params(op, pp, name)) && Params(op, pp, name) != []
  {
    hide Raw;
    assert IsBytes("obfsparam") && IsBytes("protoparam") && IsBytes("remarks");
  }

  lemma EscapedIsBytes(s: string)
    requires forall i :: 0 <= i < |s| ==> IsEscapedChar(s[i]) || s[i] == '=' || s[i] == '&'
    ensures IsBytes(s)
  {
  }

  function Params(op: string, pp: string, name: string): Query
  {
    (if op != "" then [Pair("obfsparam", Raw(op))] else [])
      + (if pp != "" then [Pair("protoparam", Raw(pp))] else [])
      + (if name != "" then [Pair("remarks", Raw(name))] else [])
  }

  lemma GetParams(op: string, pp: string, name: string)
    requires name != "" && Raw("") == ""
    ensures var q := Params(op, pp, name);
            Get(q, "remarks") == Raw(name) && Get(q, "protoparam") == Raw(pp) && Get(q, "obfsparam") == Raw(op)
  {
    hide Raw;
    var front := if op != "" then [Pair("obfsparam", Raw(op))] else [];
    var middle := if pp != "" then [Pair("protoparam", Raw(pp))] else [];
    var last := [Pair("remarks", Raw(name))];
    GetConcat(front, middle + last, "remarks");
    GetConcat(front, middle + last, "protoparam");
    GetConcat(front, middle + last, "obfsparam");
    GetConcat(middle, last, "remarks");
    GetConcat(middle, last, "protoparam");
    GetConcat(middle, last, "obfsparam");
    assert last[1..] == [];
    assert Params(op, pp, name) == front + (middle + last);
  }

  /** Get on a list of at most one pair followed by others. */
  lemma GetConcat(front: Query, rest: Query, key: string)
    requires |front| <= 1
    ensures Get(front + rest, key) == if |front| == 1 && front[0].key == key then front[0].value else Get(rest, key)
  {
    if |front| == 1 {
      assert (front + rest)[1..] == rest;
    } else {
      assert front + rest == rest;
    }
  }

  /** The body splits where it was joined. */
  lemma BodySplits(head: string, q: string)
    requires '?' !in head
    ensures SplitBody(head + "/?" + q) == Parts(head, q)
  {
    var s := head + "/?" + q;
    var i := IndexOf(s, "/?");
    assert "/?" <= s[|head|..];
    assert forall k :: 0 <= k < |head| ==> s[k] == head[k];
    if 0 <= i {
      assert s[i..][1] == s[i + 1];
      assert i + 1 >= |head|;
      assert s[i..][0] == s[i] && s[|head|] == '/' && s[|head| + 1] == '?';
    }
    hide IndexOf;
    assert i == |head|;
    assert s[..|head|] == head && s[|head| + 2..] == q;
  }

  /** A link reads back as the node it stands for, with every field it carries. */
  lemma LinkRead(n: Node)
    requires Fits(n)
    ensures Parsed(Link(n)) == Some(Carried(n))
  {
    var c := n.clash;
    hide Carried, SSRNode;
    HeadRead(c);
    QueryRead(n);
    hide CS, Head, QueryOf, EncodeQuery, ParseQuery, Get, Split, SplitBody, B64, B64Text;
    BodySplits(Head(c), EncodeQuery(QueryOf(n)));
    BodyDecodes(n);
    NodeRead(n);
    hide NodeOf;
  }

  lemma BodyDecodes(n: Node)
    requires IsBytes(Head(n.clash)) && IsBytes(EncodeQuery(QueryOf(n))) && EncodeQuery(QueryOf(n)) != ""
    ensures B64(TrimPrefix(Link(n), "ssr://")) == Some(Head(n.clash) + "/?" + EncodeQuery(QueryOf(n)))
  {
    hide Head, QueryOf, EncodeQuery, B64, Encode;
    var body := BodyText(n);
    assert body == Head(n.clash) + "/?" + EncodeQuery(QueryOf(n));
    B64OfEncode(RAW_URL, body);
    hide BodyText;
    assert ("ssr://" + Raw(body))[6..] == Raw(body);
  }

  lemma NodeRead(n: Node)
    requires n.name != "" && Trimmed(n.name) && CS(n.clash, "server") != "" && IsPort(CI(n.clash, "port"))
            && IsBytes(CS(n.clash, "password"))
    requires ParseQuery(EncodeQuery(QueryOf(n))) == QueryOf(n)
    requires B64Text(Get(QueryOf(n), "remarks")) == n.name
    requires B64Text(Get(QueryOf(n), "protoparam")) == CS(n.clash, "protocol-param")
    requires B64Text(Get(QueryOf(n), "obfsparam")) == CS(n.clash, "obfs-param")
    ensures NodeOf(HeadFields(n.clash), EncodeQuery(QueryOf(n))) == Some(Carried(n))
  {
    hide CS, CI, Raw, B64Text, Itoa, AtoiPort, QueryOf, EncodeQuery, ParseQuery, Get, TrimSpace, SSRNode, Trimmed;
    var c := n.clash;
    AtoiPortOf(CI(c, "port"));
    RawRead(CS(c, "password"));
    TrimmedIsFixed(n.name);
    var pass := Raw(CS(c, "password"));
    assert HeadFields(c)[5..] == [pass] && Join([pass], ":") == pass;
    hide Join;
  }

  // ---------- nodes that come back whole ----------

  lemma ReadBuilt(name: string, host: string, port: int, cipher: string, password: string, protocol: string,
                  obfs: string,
                  protoParam: string, obfsParam: string, k: string)
    requires k in {"server", "port", "cipher", "password", "protocol", "obfs", "protocol-param", "obfs-param"}
    ensures var c := SSRNode(name, host, port, cipher, password, protocol, obfs, protoParam, obfsParam).clash;
            && (k == "port" ==> CI(c, k) == port)
            && (k != "port" ==> CS(c, k) == if k == "server" then host else if k == "cipher" then cipher
                else if k == "password" then password
                  else if k == "protocol" then protocol else if k == "obfs" then obfs
                      else if k == "protocol-param" then protoParam else obfsParam)
  {
    hide With, CS, CI;
    var s := Seed("ssr", name, host, port);
    ReadSeed(name, host, port);
    var c1 := With(s, "cipher", Str(cipher));
    var c2 := With(c1, "password", Str(password));
    var c3 := With(c2, "protocol", Str(protocol));
    var c4 := With(c3, "obfs", Str(obfs));
    var c5 := With(c4, "protocol-param", Str(protoParam));
    var c6 := With(c5, "obfs-param", Str(obfsParam));
    ReadWith(s, "cipher", cipher, k);
    ReadWith(c1, "password", password, k);
    ReadWith(c2, "protocol", protocol, k);
    ReadWith(c3, "obfs", obfs, k);
    ReadWith(c4, "protocol-param", protoParam, k);
    ReadWith(c5, "obfs-param", obfsParam, k);
    ReadOther(c6, "udp", Bool(true), k);
  }

  lemma ReadSeed(name: string, host: string, port: int)
    ensures var s := Seed("ssr", name, host, port);
            && CS(s, "server") == host && CI(s, "port") == port
            && forall k :: k in {"cipher", "password", "protocol", "obfs", "protocol-param", "obfs-param"} ==> k !in s
  {
  }

  /** A link carries whatever a reader builds. */
  lemma BuiltIsCarried(name: string, host: string, port: int, cipher: string, password: string, protocol: string,
                       obfs: string,
                       protoParam: string, obfsParam: string)
    ensures var n := SSRNode(name, host, port, cipher, password, protocol, obfs, protoParam, obfsParam); Carried(n) == n
  {
    ReadBuilt(name, host, port, cipher, password, protocol, obfs, protoParam, obfsParam, "server");
    ReadBuilt(name, host, port, cipher, password, protocol, obfs, protoParam, obfsParam, "port");
    ReadBuilt(name, host, port, cipher, password, protocol, obfs, protoParam, obfsParam, "cipher");
    ReadBuilt(name, host, port, cipher, password, protocol, obfs, protoParam, obfsParam, "password");
    ReadBuilt(name, host, port, cipher, password, protocol, obfs, protoParam, obfsParam, "protocol");
    ReadBuilt(name, host, port, cipher, password, protocol, obfs, protoParam, obfsParam, "obfs");
    ReadBuilt(name, host, port, cipher, password, protocol, obfs, protoParam, obfsParam, "protocol-param");
    ReadBuilt(name, host, port, cipher, password, protocol, obfs, protoParam, obfsParam, "obfs-param");
    NameOfBuilt(name, host, port, cipher, password, protocol, obfs, protoParam, obfsParam);
    hide CS, CI, SSRNode;
  }

  lemma NameOfBuilt(name: string, host: string, port: int, cipher: string, password: string, protocol: string,
                    obfs: string,
                    protoParam: string, obfsParam: string)
    ensures SSRNode(name, host, port, cipher, password, protocol, obfs, protoParam, obfsParam).name == name
  {
  }

  lemma ParsedIsCarried(uri: string)
    requires Parsed(uri).Some?
    ensures Carried(Parsed(uri).value) == Parsed(uri).value
  {
    hide B64, SplitBody, Split, AtoiPort, ParseQuery, Get, B64Text, TrimSpace, Join, TrimPrefix, Carried, SSRNode;
    var parts := SplitBody(B64(TrimPrefix(uri, "ssr://")).value);
    var f, q := Split(parts.head, ':'), ParseQuery(parts.query);
    var name := TrimSpace(B64Text(Get(q, "remarks")));
    BuiltIsCarried(if name == "" then f[0] + ":"
        + Itoa(AtoiPort(f[1])) else name, f[0], AtoiPort(f[1]), f[3], B64Text(Join(f[5..], ":")), f[2], f[4],
                   B64Text(Get(q, "protoparam")), B64Text(Get(q, "obfsparam")));
  }

  /** Whatever link a node was read from, printing and reading it again gives that same node. */
  lemma RereadIsIdentity(uri: string)
    requires Parsed(uri).Some? && Fits(Parsed(uri).value)
    ensures Parsed(Link(Parsed(uri).value)) == Parsed(uri)
  {
    hide Parsed, Fits, Link, Carried;
    LinkRead(Parsed(uri).value);
    ParsedIsCarried(uri);
  }

  /** Every field a link carries reads the same on the node that comes back. */
  lemma FieldsSurvive(n: Node, k: string)
    requires k in {"server", "cipher", "password", "protocol", "obfs", "protocol-param", "obfs-param"}
    ensures Carried(n).name == n.name && CS(Carried(n).clash, k) == CS(n.clash, k)
            && CI(Carried(n).clash, "port") == CI(n.clash, "port")
  {
    var c := n.clash;
    ReadBuilt(n.name, CS(c, "server"), CI(c, "port"), CS(c, "cipher"), CS(c, "password"), CS(c, "protocol"),
        CS(c, "obfs"),
              CS(c, "protocol-param"), CS(c, "obfs-param"), k);
    ReadBuilt(n.name, CS(c, "server"), CI(c, "port"), CS(c, "cipher"), CS(c, "password"), CS(c, "protocol"),
        CS(c, "obfs"),
              CS(c, "protocol-param"), CS(c, "obfs-param"), "port");
    NameOfBuilt(n.name, CS(c, "server"), CI(c, "port"), CS(c, "cipher"), CS(c, "password"), CS(c, "protocol"),
        CS(c, "obfs"),
                CS(c, "protocol-param"), CS(c, "obfs-param"));
    hide CS, CI, SSRNode;
  }

  /** Every connection field an ssr node has reads the same. */
  predicate SameFields(c: Fields, d: Fields)
  {
    && CS(c, "server") == CS(d, "server") && CI(c, "port") == CI(d, "port")
    && CS(c, "cipher") == CS(d, "cipher") && CS(c, "password") == CS(d, "password")
    && CS(c, "protocol") == CS(d, "protocol") && CS(c, "obfs") == CS(d, "obfs")
    && CS(c, "protocol-param") == CS(d, "protocol-param") && CS(c, "obfs-param") == CS(d, "obfs-param")
    && SameFlags(c, d)
  }

  lemma BuiltFlags(name: string, host: string, port: int, cipher: string, password: string, protocol: string,
                   obfs: string,
                   protoParam: string, obfsParam: string)
    ensures ReadFlags(SSRNode(name, host, port, cipher, password, protocol, obfs, protoParam, obfsParam).clash)
  {
  }

  /**
    Every connection field comes back as it was exactly when the flags are those every read node has:
    UDP on, TCP fast open and certificate skipping off.
   */
  lemma FieldsSurviveIff(n: Node)
    ensures SameFields(Carried(n).clash, n.clash) <==> ReadFlags(n.clash)
  {
    hide CS, CI, SSRNode;
    var c := n.clash;
    BuiltFlags(n.name, CS(c, "server"), CI(c, "port"), CS(c, "cipher"), CS(c, "password"), CS(c, "protocol"),
        CS(c, "obfs"),
               CS(c, "protocol-param"), CS(c, "obfs-param"));
    assert ReadFlags(Carried(n).clash);
    hide Carried;
    FieldsSurvive(n, "server");
    FieldsSurvive(n, "cipher");
    FieldsSurvive(n, "password");
    FieldsSurvive(n, "protocol");
    FieldsSurvive(n, "obfs");
    FieldsSurvive(n, "protocol-param");
    FieldsSurvive(n, "obfs-param");
  }

  /** A link is its scheme and base64 symbols. */
  lemma LinkShape(n: Node)
    requires Fits(n)
    ensures var l := Link(n);
            && "ssr://" <= l && '\n' !in l && '=' !in l && IsBytes(l) && l != "" && IsGraph(l[|l| - 1])
  {
    hide Head, QueryOf, EncodeQuery, ParseQuery, Get, B64Text, Split, CS, CI, Encode;
    HeadRead(n.clash);
    QueryRead(n);
    var body := BodyText(n);
    assert IsBytes(body) && body != "";
    hide BodyText;
    RawShape(body);
  }

  lemma RawShape(body: string)
    requires IsBytes(body) && body != ""
    ensures var l := "ssr://" + Raw(body);
            && '\n' !in l && '=' !in l && IsBytes(l) && IsGraph(l[|l| - 1])
  {
    hide Encode;
    EncodeIsCode(RAW_URL, body);
    SymbolsOnly(Raw(body));
  }

  lemma SymbolsOnly(t: string)
    requires forall i :: 0 <= i < |t| ==> IsSymbol(true, t[i])
    ensures forall i :: 0 <= i < |t| ==> t[i] != '\n' && t[i] != '=' && t[i] as int < 256 && IsGraph(t[i])
  {
    forall i | 0 <= i < |t|
      ensures t[i] != '\n' && t[i] != '=' && t[i] as int < 256 && IsGraph(t[i])
    {
      assert IsSymbol(true, t[i]);
    }
  }
}
