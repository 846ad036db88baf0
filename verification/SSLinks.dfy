/**
  Shadowsocks share links: the SIP002 form the converter writes (internal/generator/v2ray.go) and
  both forms it reads (internal/parser/ss.go).
 */
module SSLinks {
  import opened Wrappers
  import opened Text
  import opened Decimal
  import opened Values
  import opened Accessors
  import opened Base64
  import opened Percent
  import opened LinkText

  // ---------- writing ----------

  function PluginParts(c: Fields): seq<string>
  {
    var plugin, opts := CS(c, "plugin"), CMap(c, "plugin-opts");
    var host, path := CS(opts, "host"), CS(opts, "path");
    if plugin == "obfs" then
      ["obfs-local", "obfs=" + CS(opts, "mode")] + (if host != "" then ["obfs-host=" + host] else [])
    else if plugin == "v2ray-plugin" then
      ["v2ray-plugin", "mode=" + FirstNonEmpty(CS(opts, "mode"), "websocket")]
        + (if CB(opts, "tls") then ["tls"] else [])
        + (if host != "" then ["host=" + host] else [])
        + (if path != "" then ["path=" + path] else [])
    else []
  }

  function PluginQuery(c: Fields): string
  {
    if PluginParts(c) == [] then "" else "plugin=" + QueryEscape(Join(PluginParts(c), ";"))
  }

  method SSPluginQuery(c: Fields) returns (q: string)
    ensures q == PluginQuery(c)
  {
    hide CS, CB, QueryEscape, Join, FirstNonEmpty;
    var plugin := CS(c, "plugin");
    if plugin == "" {
      return "";
    }
    var opts := CMap(c, "plugin-opts");
    var parts: seq<string> := [];
    match plugin {
      case "obfs" =>
        parts := parts + ["obfs-local", "obfs=" + CS(opts, "mode")];
        var h := CS(opts, "host");
        if h != "" { parts := parts + ["obfs-host=" + h]; }
      case "v2ray-plugin" =>
        parts := parts + ["v2ray-plugin", "mode=" + FirstNonEmpty(CS(opts, "mode"), "websocket")];
        if CB(opts, "tls") { parts := parts + ["tls"]; }
        var h := CS(opts, "host");
        if h != "" { parts := parts + ["host=" + h]; }
        var p := CS(opts, "path");
        if p != "" { parts := parts + ["path=" + p]; }
      case _ =>
        return "";
    }
    assert parts == PluginParts(c);
    return "plugin=" + QueryEscape(Join(parts, ";"));
  }

  function EncodeFragment(name: string): string { ReplaceChar(QueryEscape(name), '+', "%20") }

  function UserInfo(c: Fields): string { Encode(RAW_URL, CS(c, "cipher") + ":" + CS(c, "password")) }

  function HostPortOf(c: Fields): string { CS(c, "server") + ":" + Itoa(CI(c, "port")) }

  function Link(n: Node): string
  {
    var q := PluginQuery(n.clash);
    "ss://" + UserInfo(n.clash) + "@" + HostPortOf(n.clash) + (if q != "" then "?" + q else "") + "#"
        + EncodeFragment(n.name)
  }

  // ---------- reading ----------

  /** What one part of a plugin spec sets. */
  function OptionSet(kv: string): Option<(string, Value)>
  {
    var cut := Cut(kv, '=');
    var k, v := cut.before, cut.after;
    if k == "obfs" then Some(("mode", Str(v)))
    else if k == "obfs-host" then Some(("host", Str(v)))
    else if k == "mode" then Some(("mode", Str(v)))
    else if k == "host" then Some(("host", Str(v)))
    else if k == "path" then Some(("path", Str(v)))
    else if k == "tls" then Some(("tls", Bool(true)))
    else None
  }

  function OptionsOf(parts: seq<string>): Fields
  {
    if parts == [] then map[] else
    var n := |parts| - 1;
    var before, o := OptionsOf(parts[..n]), OptionSet(parts[n]);
    if o.Some? then before[o.value.0 := o.value.1] else before
  }

  function WithPlugin(c: Fields, spec: string): Fields
  {
    var parts := Split(spec, ';');
    var name, opts := parts[0], OptionsOf(parts[1..]);
    if Contains(name, "obfs") then c["plugin" := Str("obfs")]["plugin-opts" := Map(opts)]
    else if Contains(name, "v2ray") then c["plugin" := Str("v2ray-plugin")]["plugin-opts" := Map(opts)]
    else c
  }

  method ApplySSPlugin(p: Proxy, spec: string)
    modifies p`Clash
    ensures p.Clash == WithPlugin(old(p.Clash), spec)
  {
    hide Split, Cut, Contains;
    var parts := Split(spec, ';');
    var name := parts[0];
    var opts: Fields := map[];
    ghost var rest := parts[1..];
    for i := 1 to |parts|
      invariant opts == OptionsOf(rest[..i - 1])
    {
      assert rest[..i][..i - 1] == rest[..i - 1] && rest[i - 1] == parts[i];
      var cut := Cut(parts[i], '=');
      var v := cut.after;
      match cut.before {
        case "obfs" => opts := opts["mode" := Str(v)];
        case "obfs-host" => opts := opts["host" := Str(v)];
        case "mode" => opts := opts["mode" := Str(v)];
        case "host" => opts := opts["host" := Str(v)];
        case "path" => opts := opts["path" := Str(v)];
        case "tls" => opts := opts["tls" := Bool(true)];
        case _ =>
      }
    }
    assert rest[..|parts| - 1] == rest;
    if Contains(name, "obfs") {
      p.Set("plugin", Str("obfs"));
      p.Set("plugin-opts", Map(opts));
    } else if Contains(name, "v2ray") {
      p.Set("plugin", Str("v2ray-plugin"));
      p.Set("plugin-opts", Map(opts));
    }
  }

  /** A node as the reader builds it. */
  function SSNode(name: string, host: string, port: int, cipher: string, password: string, plugin: string): Node
  {
    var c := With(With(Seed("ss", name, host, port), "cipher", Str(cipher)), "password",
        Str(password))["udp" := Bool(true)];
    Node(name, "ss", host, port, if plugin != "" then WithPlugin(c, plugin) else c)
  }

  /** The name in a fragment, "" when it does not unescape. */
  function FragmentName(fragment: string): string
  {
    var n := QueryUnescape(fragment);
    if n.Some? then TrimSpace(n.value) else ""
  }

  datatype Body = Malformed | Body(cred: Cred, hp: HostPort, query: string)

  function Sip002(userinfo: string, hostpart: string): Body
  {
    var cut := Cut(hostpart, '?');
    var dec := B64(userinfo);
    Body(SplitCred(if dec.Some? then dec.value else userinfo), SplitHostPort(cut.before), cut.after)
  }

  function Legacy(rest: string): Body
  {
    var cut := Cut(rest, '?');
    var dec := B64Text(cut.before);
    var at := LastIndex(dec, '@');
    if at < 0 then Malformed else Body(SplitCred(dec[..at]), SplitHostPort(dec[at + 1..]), cut.after)
  }

  function BodyOf(rest: string): Body
  {
    var at := LastIndex(rest, '@');
    if at >= 0 then Sip002(rest[..at], rest[at + 1..]) else Legacy(rest)
  }

  function Parsed(uri: string): Option<Node>
  {
    var cut := Cut(TrimPrefix(uri, "ss://"), '#');
    var b := BodyOf(cut.before);
    if b.Malformed? || b.hp.host == "" || b.hp.port == 0 || b.cred.cipher == "" then None
    else
      var name := if cut.found then FragmentName(cut.after) else "";
      Some(SSNode(if name == "" then b.hp.host + ":" + Itoa(b.hp.port) else name,
                  b.hp.host, b.hp.port, b.cred.cipher, b.cred.password, Get(ParseQuery(b.query), "plugin")))
  }

  /** The credentials, the address and the query of a link without its fragment, in either form. */
  method ReadBody(link: string) returns (b: Body)
    ensures b == BodyOf(link)
  {
    hide Index, LastIndex, B64, B64Text, SplitCred, SplitHostPort;
    var rest, query := link, "";
    var at := LastIndex(rest, '@');
    if at >= 0 {
      var userinfo, hostpart := rest[..at], rest[at + 1..];
      var q := Index(hostpart, '?');
      if q >= 0 {
        query := hostpart[q + 1..];
        hostpart := hostpart[..q];
      }
      var hp := SplitHostPort(hostpart);
      var dec, ok := B64Decode(userinfo);
      B64TextOf(userinfo);
      var cred;
      if ok {
        cred := SplitCred(dec);
      } else {
        cred := SplitCred(userinfo);
      }
      b := Body(cred, hp, query);
    } else {
      var q := Index(rest, '?');
      if q >= 0 {
        query := rest[q + 1..];
        rest := rest[..q];
      }
      var dec, _ := B64Decode(rest);
      var dat := LastIndex(dec, '@');
      if dat < 0 {
        return Malformed;
      }
      b := Body(SplitCred(dec[..dat]), SplitHostPort(dec[dat + 1..]), query);
    }
  }

  /** parseSS; null stands for an error. */
  method ParseSS(uri: string) returns (p: Proxy?)
    ensures p == null <==> Parsed(uri) == None
    ensures p != null ==> fresh(p) && Parsed(uri) == Some(p.View())
  {
    hide Index, QueryUnescape, TrimSpace, TrimPrefix, BodyOf, ParseQuery, Get, WithPlugin, Itoa;
    p := null;
    var rest := TrimPrefix(uri, "ss://");
    var name := "";
    var i := Index(rest, '#');
    if i >= 0 {
      var n := QueryUnescape(rest[i + 1..]);
      if n.Some? {
        name := TrimSpace(n.value);
      }
      rest := rest[..i];
    }
    var b := ReadBody(rest);
    if b.Malformed? {
      return;
    }
    if b.hp.host == "" || b.hp.port == 0 || b.cred.cipher == "" {
      return;
    }
    if name == "" {
      name := b.hp.host + ":" + Itoa(b.hp.port);
    }
    assert Parsed(uri) == Some(SSNode(name, b.hp.host, b.hp.port, b.cred.cipher, b.cred.password,
        Get(ParseQuery(b.query), "plugin")));
    p := BuildSS(name, b);
  }

  method BuildSS(name: string, b: Body) returns (p: Proxy)
    requires b.Body?
    ensures fresh(p)
    ensures p.View() == SSNode(name, b.hp.host, b.hp.port, b.cred.cipher, b.cred.password,
            Get(ParseQuery(b.query), "plugin"))
  {
    hide ParseQuery, Get, WithPlugin;
    p := new Proxy("ss", name, b.hp.host, b.hp.port);
    p.Set("cipher", Str(b.cred.cipher));
    p.Set("password", Str(b.cred.password));
    p.SetRaw("udp", Bool(true));
    var plugin := Get(ParseQuery(b.query), "plugin");
    if plugin != "" {
      ApplySSPlugin(p, plugin);
    }
  }

  // ---------- what a link carries ----------

  function ObfsOptions(opts: Fields): Fields
  {
    var base: Fields := map["mode" := Str(CS(opts, "mode"))];
    if CS(opts, "host") != "" then base["host" := Str(CS(opts, "host"))] else base
  }

  function V2rayOptions(opts: Fields): Fields
  {
    var c0: Fields := map["mode" := Str(FirstNonEmpty(CS(opts, "mode"), "websocket"))];
    var c1 := if CB(opts, "tls") then c0["tls" := Bool(true)] else c0;
    var c2 := if CS(opts, "host") != "" then c1["host" := Str(CS(opts, "host"))] else c1;
    if CS(opts, "path") != "" then c2["path" := Str(CS(opts, "path"))] else c2
  }

  function CarriedPlugin(c: Fields, onto: Fields): Fields
  {
    var plugin, opts := CS(c, "plugin"), CMap(c, "plugin-opts");
    if plugin == "obfs" then onto["plugin" := Str("obfs")]["plugin-opts" := Map(ObfsOptions(opts))]
    else if plugin == "v2ray-plugin" then
        onto["plugin" := Str("v2ray-plugin")]["plugin-opts" := Map(V2rayOptions(opts))]
    else onto
  }

  /** The node a link stands for: the fields a share link has room for. */
  function Carried(n: Node): Node
  {
    var c := n.clash;
    var host, port := CS(c, "server"), CI(c, "port");
    var base := With(With(Seed("ss", n.name, host, port), "cipher", Str(CS(c, "cipher"))), "password",
        Str(CS(c, "password")));
    Node(n.name, "ss", host, port, CarriedPlugin(c, base["udp" := Bool(true)]))
  }

  predicate PlainOption(s: string) { IsBytes(s) && ';' !in s }

  predicate HostFits(host: string)
  {
    HostStarts(host) && IsBytes(host) && '@' !in host && '?' !in host && '#' !in host && '=' !in host && '\n' !in host
  }

  predicate NameFits(name: string) { name != "" && Trimmed(name) && IsBytes(name) }

  /** Trimmed names, no separators in the address and the cipher, no ';' in the plugin options. */
  predicate Fits(n: Node)
  {
    var c, opts := n.clash, CMap(n.clash, "plugin-opts");
    && n.typ == "ss" && NameFits(n.name)
    && HostFits(CS(c, "server")) && IsPort(CI(c, "port"))
    && CS(c, "cipher") != "" && ':' !in CS(c, "cipher") && IsBytes(CS(c, "cipher")) && IsBytes(CS(c, "password"))
    && PlainOption(CS(opts, "mode")) && PlainOption(CS(opts, "host")) && PlainOption(CS(opts, "path"))
  }

  // -- the plugin --

  function Applied(opts: Fields, kv: string): Fields
  {
    var o := OptionSet(kv);
    if o.Some? then opts[o.value.0 := o.value.1] else opts
  }

  lemma OptionsSnoc(parts: seq<string>, kv: string)
    ensures OptionsOf(parts + [kv]) == Applied(OptionsOf(parts), kv)
  {
    assert (parts + [kv])[..|parts|] == parts;
    hide OptionSet;
  }

  predicate Sets(k: string, key: string)
  {
    || (k == "obfs" && key == "mode") || (k == "obfs-host" && key == "host")
    || (k == "mode" && key == "mode") || (k == "host" && key == "host") || (k == "path" && key == "path")
  }

  lemma OptionOf(k: string, key: string, v: string)
    requires Sets(k, key)
    ensures OptionSet(k + "=" + v) == Some((key, Str(v)))
  {
    assert '=' !in k;
    CutAt(k, '=', v);
    assert k + ['='] + v == k + "=" + v;
    hide Cut;
  }

  lemma TlsOption()
    ensures OptionSet("tls") == Some(("tls", Bool(true)))
  {
  }

  /** Appending one more optional part to a plugin spec. */
  lemma OptionStep(parts: seq<string>, present: bool, k: string, key: string, v: string)
    requires Sets(k, key)
    ensures OptionsOf(parts + if present then [k + "=" + v] else []) ==
            if present then OptionsOf(parts)[key := Str(v)] else OptionsOf(parts)
  {
    if present {
      OptionsSnoc(parts, k + "=" + v);
      OptionOf(k, key, v);
    } else {
      assert parts + [] == parts;
    }
    hide OptionSet, OptionsOf;
  }

  lemma TlsStep(parts: seq<string>, present: bool)
    ensures OptionsOf(parts + if present then ["tls"] else []) ==
            if present then OptionsOf(parts)["tls" := Bool(true)] else OptionsOf(parts)
  {
    if present {
      OptionsSnoc(parts, "tls");
      TlsOption();
    } else {
      assert parts + [] == parts;
    }
    hide OptionSet, OptionsOf;
  }

  function ObfsParts(opts: Fields): seq<string>
  {
    [] + ["obfs" + "=" + CS(opts, "mode")] + if CS(opts, "host") != "" then ["obfs-host" + "=" + CS(opts, "host")]
        else []
  }

  function V2rayParts(opts: Fields): seq<string>
  {
    [] + ["mode" + "=" + FirstNonEmpty(CS(opts, "mode"), "websocket")]
      + (if CB(opts, "tls") then ["tls"] else [])
      + (if CS(opts, "host") != "" then ["host" + "=" + CS(opts, "host")] else [])
      + (if CS(opts, "path") != "" then ["path" + "=" + CS(opts, "path")] else [])
  }

  lemma ObfsRead(opts: Fields)
    ensures OptionsOf(ObfsParts(opts)) == ObfsOptions(opts)
  {
    hide CS, OptionsOf;
    var mode, host := CS(opts, "mode"), CS(opts, "host");
    OptionsNone();
    OptionStep([], true, "obfs", "mode", mode);
    OptionStep([] + ["obfs" + "=" + mode], host != "", "obfs-host", "host", host);
  }

  lemma OptionsNone()
    ensures OptionsOf([]) == map[]
  {
  }

  lemma V2rayRead(opts: Fields)
    ensures OptionsOf(V2rayParts(opts)) == V2rayOptions(opts)
  {
    hide CS, CB, OptionsOf, FirstNonEmpty;
    var mode, host, path, tls := FirstNonEmpty(CS(opts, "mode"), "websocket"), CS(opts, "host"), CS(opts, "path"),
        CB(opts, "tls");
    OptionsNone();
    OptionStep([], true, "mode", "mode", mode);
    var p1 := [] + ["mode" + "=" + mode];
    TlsStep(p1, tls);
    var p2 := p1 + if tls then ["tls"] else [];
    OptionStep(p2, host != "", "host", "host", host);
    var p3 := p2 + if host != "" then ["host" + "=" + host] else [];
    OptionStep(p3, path != "", "path", "path", path);
  }

  /** The spec's first part, and the rest. */
  lemma PartsAre(c: Fields)
    ensures var plugin, opts := CS(c, "plugin"), CMap(c, "plugin-opts");
            PluginParts(c) == if plugin == "obfs" then ["obfs-local"] + ObfsParts(opts)
                              else if plugin == "v2ray-plugin" then ["v2ray-plugin"] + V2rayParts(opts) else []
  {
    hide CS, CB, FirstNonEmpty;
    assert "obfs" + "=" == "obfs=" && "obfs-host" + "=" == "obfs-host=" && "mode" + "=" == "mode=";
    assert "host" + "=" == "host=" && "path" + "=" == "path=";
  }

  lemma PartsArePlain(c: Fields)
    requires var opts := CMap(c, "plugin-opts");
            PlainOption(CS(opts, "mode")) && PlainOption(CS(opts, "host")) && PlainOption(CS(opts, "path"))
    ensures forall i :: 0 <= i < |PluginParts(c)| ==> PlainOption(PluginParts(c)[i])
  {
    var opts := CMap(c, "plugin-opts");
    var mode, host, path := CS(opts, "mode"), CS(opts, "host"), CS(opts, "path");
    hide CS, CB;
    WordsArePlain();
    PlainAfter("obfs=", mode);
    PlainAfter("obfs-host=", host);
    PlainAfter("mode=", mode);
    PlainAfter("host=", host);
    PlainAfter("path=", path);
    hide PlainOption;
  }

  lemma WordsArePlain()
    ensures PlainOption("obfs=") && PlainOption("obfs-host=") && PlainOption("mode=") && PlainOption("host=")
            && PlainOption("path=")
    ensures PlainOption("obfs-local") && PlainOption("v2ray-plugin") && PlainOption("tls")
            && PlainOption("mode=" + "websocket")
  {
  }

  lemma PlainAfter(key: string, value: string)
    requires PlainOption(key) && PlainOption(value)
    ensures PlainOption(key + value)
  {
  }

  lemma NamesFound()
    ensures Contains("obfs-local", "obfs") && Contains("v2ray-plugin", "v2ray") && !Contains("v2ray-plugin", "obfs")
  {
    assert "obfs" <= "obfs-local"[0..] && "v2ray" <= "v2ray-plugin"[0..];
    NotContained("v2ray-plugin", "obfs");
  }

  function PluginOf(onto: Fields, name: string, opts: Fields): Fields
  {
    if Contains(name, "obfs") then onto["plugin" := Str("obfs")]["plugin-opts" := Map(opts)]
    else if Contains(name, "v2ray") then onto["plugin" := Str("v2ray-plugin")]["plugin-opts" := Map(opts)]
    else onto
  }

  lemma PluginOfParts(onto: Fields, name: string, rest: seq<string>)
    requires forall i :: 0 <= i < |[name] + rest| ==> ';' !in ([name] + rest)[i]
    ensures WithPlugin(onto, Join([name] + rest, ";")) == PluginOf(onto, name, OptionsOf(rest))
  {
    hide Contains, OptionsOf;
    var parts := [name] + rest;
    SplitJoin(parts, ';');
    hide Split, Join;
    assert parts[1..] == rest;
  }

  /** Reading the plugin spec that was written gives the plugin fields back. */
  lemma PluginRead(c: Fields, onto: Fields)
    requires PluginParts(c) != []
    requires var opts := CMap(c, "plugin-opts");
            PlainOption(CS(opts, "mode")) && PlainOption(CS(opts, "host")) && PlainOption(CS(opts, "path"))
    ensures WithPlugin(onto, Join(PluginParts(c), ";")) == CarriedPlugin(c, onto)
  {
    hide CS, CB, OptionsOf, WithPlugin, Join, Contains, ObfsOptions, V2rayOptions, ObfsParts, V2rayParts, CMap;
    var opts := CMap(c, "plugin-opts");
    PartsArePlain(c);
    PartsAre(c);
    hide PluginParts;
    NamesFound();
    if CS(c, "plugin") == "obfs" {
      PluginOfParts(onto, "obfs-local", ObfsParts(opts));
      ObfsRead(opts);
    } else {
      PluginOfParts(onto, "v2ray-plugin", V2rayParts(opts));
      V2rayRead(opts);
    }
  }

  // -- the whole link --

  lemma UserInfoRead(c: Fields)
    requires ':' !in CS(c, "cipher") && IsBytes(CS(c, "cipher")) && IsBytes(CS(c, "password"))
    ensures AllCode(true, UserInfo(c)) && B64(UserInfo(c)).Some?
    ensures SplitCred(B64(UserInfo(c)).value) == Cred(CS(c, "cipher"), CS(c, "password"))
  {
    hide CS, Encode, B64;
    var cipher, password := CS(c, "cipher"), CS(c, "password");
    var text := cipher + ":" + password;
    EncodeIsCode(RAW_URL, text);
    B64OfEncode(RAW_URL, text);
    CutAt(cipher, ':', password);
    assert cipher + [':'] + password == text;
    hide Cut;
  }

  lemma FragmentRead(name: string)
    requires NameFits(name)
    ensures IsEscaped(EncodeFragment(name)) && FragmentName(EncodeFragment(name)) == name
  {
    PlusIsSpace(name);
    EscapedChars(name, "%20");
    UnescapeEscape(name, "%20");
    TrimmedIsFixed(name);
    hide QueryUnescape, TrimSpace, EscapeWith, ReplaceChar;
  }

  lemma {:induction false} UnreservedStays(s: string)
    requires forall i :: 0 <= i < |s| ==> IsUnreserved(s[i])
    ensures QueryEscape(s) == s
  {
    if s != "" {
      UnreservedStays(s[1..]);
      assert [s[0]] + s[1..] == s;
    }
  }

  function Spec(c: Fields): string { if PluginParts(c) == [] then "" else Join(PluginParts(c), ";") }

  lemma {:induction false} JoinIsBytes(parts: seq<string>)
    requires forall i :: 0 <= i < |parts| ==> PlainOption(parts[i])
    ensures IsBytes(Join(parts, ";"))
  {
    if |parts| > 1 { JoinIsBytes(parts[1..]); }
  }

  lemma SpecIsEmpty(c: Fields)
    ensures Spec(c) == "" <==> PluginParts(c) == []
  {
    hide CS, CB, FirstNonEmpty;
    var parts := PluginParts(c);
    if parts != [] { assert parts[0] == "obfs-local" || parts[0] == "v2ray-plugin"; }
    hide PluginParts;
  }

  lemma QueryRead(c: Fields)
    requires forall i :: 0 <= i < |PluginParts(c)| ==> PlainOption(PluginParts(c)[i])
    ensures Get(ParseQuery(PluginQuery(c)), "plugin") == Spec(c)
    ensures '@' !in PluginQuery(c) && '#' !in PluginQuery(c) && '\n' !in PluginQuery(c) && ',' !in PluginQuery(c)
    ensures PluginQuery(c) == "" <==> Spec(c) == ""
  {
    SpecIsEmpty(c);
    if PluginParts(c) != [] {
      var spec := Spec(c);
      JoinIsBytes(PluginParts(c));
      hide PluginParts, Join;
      SpecQueryRead(spec);
      assert PluginQuery(c) == "plugin=" + QueryEscape(spec);
      hide ParseQuery, Get, QueryEscape;
    }
  }

  lemma SpecQueryRead(spec: string)
    requires IsBytes(spec)
    ensures var q := "plugin=" + QueryEscape(spec);
            && Get(ParseQuery(q), "plugin") == spec
            && '@' !in q && '#' !in q && '\n' !in q && ',' !in q
  {
    hide ParseQuery, EncodeQuery, EscapeWith;
    var pair := Pair("plugin", spec);
    ParseEncoded([pair]);
    SpecSegment(spec);
    EscapedChars(spec, "+");
    EscapedAvoids(QueryEscape(spec));
    PluginPrefix();
    assert Get([pair], "plugin") == spec;
    hide Get, IsEscaped;
  }

  lemma PluginPrefix()
    ensures '@' !in "plugin=" && '#' !in "plugin=" && '\n' !in "plugin=" && ',' !in "plugin="
  {
  }

  lemma SpecSegment(spec: string)
    ensures EncodeQuery([Pair("plugin", spec)]) == "plugin=" + QueryEscape(spec)
  {
    UnreservedStays("plugin");
    hide QueryEscape;
    assert "plugin" + "=" == "plugin=";
  }

  /** Between the scheme and the fragment. */
  function Middle(c: Fields): string
  {
    UserInfo(c) + "@" + (HostPortOf(c) + if PluginQuery(c) != "" then "?" + PluginQuery(c) else "")
  }

  lemma LinkParts(n: Node)
    ensures Link(n) == "ss://" + (Middle(n.clash) + "#" + EncodeFragment(n.name))
  {
    hide UserInfo, HostPortOf, PluginQuery, EncodeFragment;
  }

  lemma HostPortChars(c: Fields)
    requires HostFits(CS(c, "server"))
    ensures var hp := HostPortOf(c); '@' !in hp && '?' !in hp && '#' !in hp && '=' !in hp && '\n' !in hp
  {
    ItoaChars(CI(c, "port"));
    hide CS, Itoa;
  }

  lemma BodyRead(c: Fields)
    requires HostFits(CS(c, "server")) && IsPort(CI(c, "port"))
    requires ':' !in CS(c, "cipher") && IsBytes(CS(c, "cipher")) && IsBytes(CS(c, "password"))
    requires var q := PluginQuery(c); '@' !in q && '#' !in q
    ensures BodyOf(Middle(c)) == Body(Cred(CS(c, "cipher"), CS(c, "password")),
            HostPort(CS(c, "server"), CI(c, "port")), PluginQuery(c))
    ensures '#' !in Middle(c)
  {
    hide CS, CI, PluginQuery, UserInfo, B64, SplitCred, SplitHostPort, BodyOf;
    HostPortChars(c);
    SplitPrinted(CS(c, "server"), CI(c, "port"));
    hide Itoa;
    UserInfoRead(c);
    NoCode(UserInfo(c));
    hide HostPortOf;
    var hostpart := HostPortOf(c) + if PluginQuery(c) != "" then "?" + PluginQuery(c) else "";
    HostPartRead(HostPortOf(c), PluginQuery(c));
    SplitAtUser(UserInfo(c), hostpart);
    hide Cut;
  }

  lemma HostPartRead(hp: string, q: string)
    requires '?' !in hp
    ensures Cut(hp + if q != "" then "?" + q else "", '?') == CutResult(hp, q, q != "")
  {
    if q != "" {
      CutAt(hp, '?', q);
      assert hp + ['?'] + q == hp + ("?" + q);
    } else {
      CutNone(hp, '?');
      assert hp + "" == hp;
    }
    hide Cut;
  }

  lemma SplitAtUser(user: string, hostpart: string)
    requires '@' !in hostpart
    ensures BodyOf(user + "@" + hostpart) == Sip002(user, hostpart)
  {
    hide Sip002, Legacy;
    LastIndexAt(user, '@', hostpart);
    var rest := user + ['@'] + hostpart;
    assert rest == user + "@" + hostpart;
    hide LastIndex;
    assert rest[..|user|] == user && rest[|user| + 1..] == hostpart;
  }

  lemma CutNone(s: string, c: char)
    requires c !in s
    ensures Cut(s, c) == CutResult(s, "", false)
  {
  }

  lemma NoCode(t: string)
    requires AllCode(true, t)
    ensures '@' !in t && '#' !in t && '?' !in t && '\n' !in t && ',' !in t
  {
    forall i | 0 <= i < |t|
      ensures t[i] !in {'@', '#', '?', '\n', ','}
    {
      assert IsCode(true, t[i]);
    }
  }

  /** A link reads back as the node it stands for, with every field it carries. */
  lemma LinkRead(n: Node)
    requires Fits(n)
    ensures Parsed(Link(n)) == Some(Carried(n))
  {
    hide CS, CI, PluginParts, PluginQuery, BodyOf, Middle, EncodeFragment, FragmentName, ParseQuery, Get, WithPlugin,
        CarriedPlugin, Link,
      Itoa, Join, PlainOption, TrimPrefix;
    var c := n.clash;
    PartsArePlain(c);
    QueryRead(c);
    BodyRead(c);
    FragmentRead(n.name);
    LinkParts(n);
    CutLink(Middle(c), EncodeFragment(n.name));
    hide Cut, Spec;
    assert Parsed(Link(n)) == Some(SSNode(n.name, CS(c, "server"), CI(c, "port"), CS(c, "cipher"), CS(c, "password"),
        Spec(c)));
    SpecRead(c, SSNode(n.name, CS(c, "server"), CI(c, "port"), CS(c, "cipher"), CS(c, "password"), "").clash);
  }

  /** Both ways the reader adds the plugin, or leaves it out. */
  lemma SpecRead(c: Fields, onto: Fields)
    requires var opts := CMap(c, "plugin-opts");
            PlainOption(CS(opts, "mode")) && PlainOption(CS(opts, "host")) && PlainOption(CS(opts, "path"))
    ensures (if Spec(c) != "" then WithPlugin(onto, Spec(c)) else onto) == CarriedPlugin(c, onto)
  {
    hide CS, CB, WithPlugin, CarriedPlugin, CMap;
    SpecIsEmpty(c);
    NoPlugin(c, onto);
    if PluginParts(c) != [] { PluginRead(c, onto); }
    hide PluginParts, Join;
  }

  lemma CutLink(middle: string, fragment: string)
    requires '#' !in middle
    ensures Cut(TrimPrefix("ss://" + (middle + "#" + fragment), "ss://"), '#') == CutResult(middle, fragment, true)
  {
    hide Cut;
    CutAt(middle, '#', fragment);
    var rest := middle + ['#'] + fragment;
    assert rest == middle + "#" + fragment;
    assert ("ss://" + rest)[5..] == rest;
  }

  lemma NoPlugin(c: Fields, onto: Fields)
    ensures PluginParts(c) == [] ==> CarriedPlugin(c, onto) == onto
  {
    hide CS, CB, FirstNonEmpty;
  }

  // ---------- nodes that come back whole ----------

  function Base(name: string, host: string, port: int, cipher: string, password: string): Fields
  {
    With(With(Seed("ss", name, host, port), "cipher", Str(cipher)), "password", Str(password))["udp" := Bool(true)]
  }

  lemma ReadSeed(name: string, host: string, port: int)
    ensures var s := Seed("ss", name, host, port);
            && CS(s, "server") == host && CI(s, "port") == port
            && "cipher" !in s && "password" !in s && "plugin" !in s && "plugin-opts" !in s
  {
  }

  lemma ReadBase(name: string, host: string, port: int, cipher: string, password: string)
    ensures var c := Base(name, host, port, cipher, password);
            && CS(c, "server") == host && CI(c, "port") == port && CS(c, "cipher") == cipher
            && CS(c, "password") == password
            && "plugin" !in c && "plugin-opts" !in c
  {
    ReadBaseAt(name, host, port, cipher, password, "server");
    ReadBaseAt(name, host, port, cipher, password, "port");
    ReadBaseAt(name, host, port, cipher, password, "cipher");
    ReadBaseAt(name, host, port, cipher, password, "password");
    ReadBaseAt(name, host, port, cipher, password, "plugin");
    ReadBaseAt(name, host, port, cipher, password, "plugin-opts");
    hide CS, CI, Base;
  }

  lemma ReadBaseAt(name: string, host: string, port: int, cipher: string, password: string, k: string)
    requires k in {"server", "port", "cipher", "password", "plugin", "plugin-opts"}
    ensures var c := Base(name, host, port, cipher, password);
            && (k == "port" ==> CI(c, k) == port)
            && (k in {"server", "cipher", "password"} ==>
                CS(c, k) == if k == "server" then host else if k == "cipher" then cipher else password)
            && (k in {"plugin", "plugin-opts"} ==> k !in c)
  {
    hide With, CS, CI, CB, CMap;
    var s := Seed("ss", name, host, port);
    ReadSeed(name, host, port);
    var c1 := With(s, "cipher", Str(cipher));
    var c2 := With(c1, "password", Str(password));
    ReadWith(s, "cipher", cipher, k);
    ReadWith(c1, "password", password, k);
    ReadOther(c2, "udp", Bool(true), k);
  }

  /** The keys the reader sets for a plugin, and their kinds. */
  predicate Typed(o: Fields)
  {
    && o.Keys <= {"mode", "host", "path", "tls"}
    && ("mode" in o ==> o["mode"].Str?) && ("host" in o ==> o["host"].Str?) && ("path" in o ==> o["path"].Str?)
    && ("tls" in o ==> o["tls"] == Bool(true))
  }

  lemma {:induction false} OptionsAreTyped(parts: seq<string>)
    ensures Typed(OptionsOf(parts))
  {
    if parts != [] {
      OptionsAreTyped(parts[..|parts| - 1]);
      AppliedIsTyped(OptionsOf(parts[..|parts| - 1]), parts[|parts| - 1]);
      hide OptionSet, Typed;
    }
  }

  lemma AppliedIsTyped(o: Fields, kv: string)
    requires Typed(o)
    ensures Typed(Applied(o, kv))
  {
    hide Cut;
  }

  /** Options the writer writes as they are. */
  predicate WholeObfs(o: Fields)
  {
    "mode" in o && "path" !in o && "tls" !in o && ("host" in o ==> o["host"] != Str(""))
  }

  predicate WholeV2ray(o: Fields)
  {
    "mode" in o && o["mode"] != Str("") && ("host" in o ==> o["host"] != Str(""))
        && ("path" in o ==> o["path"] != Str(""))
  }

  lemma ObfsWhole(o: Fields)
    requires Typed(o)
    ensures ObfsOptions(o) == o <==> WholeObfs(o)
  {
    if WholeObfs(o) {
      assert forall k :: k in o ==> k == "mode" || k == "host";
      assert forall k :: k in ObfsOptions(o) ==> k == "mode" || k == "host";
    }
  }

  lemma V2rayWhole(o: Fields)
    requires Typed(o)
    ensures V2rayOptions(o) == o <==> WholeV2ray(o)
  {
    var b := V2rayOptions(o);
    assert forall k :: k in b ==> k == "mode" || k == "host" || k == "path" || k == "tls";
    assert "mode" in b && b["mode"] == Str(FirstNonEmpty(CS(o, "mode"), "websocket"));
    assert "host" in b <==> CS(o, "host") != "";
    assert "path" in b <==> CS(o, "path") != "";
    assert "tls" in b <==> CB(o, "tls");
    assert "host" in b ==> b["host"] == Str(CS(o, "host"));
    assert "path" in b ==> b["path"] == Str(CS(o, "path"));
    assert "tls" in b ==> b["tls"] == Bool(true);
    hide V2rayOptions;
    if WholeV2ray(o) {
      assert forall k :: k in o ==> k in b && o[k] == b[k];
      assert forall k :: k in b ==> k in o;
    }
  }

  function WithOptions(c: Fields, plugin: string, o: Fields): Fields
  {
    c["plugin" := Str(plugin)]["plugin-opts" := Map(o)]
  }

  lemma ReadWithOptions(c: Fields, plugin: string, o: Fields, k: string)
    requires k in {"server", "port", "cipher", "password"}
    ensures var d := WithOptions(c, plugin, o);
            && CS(d, k) == CS(c, k) && CI(d, k) == CI(c, k) && CS(d, "plugin") == plugin && CMap(d, "plugin-opts") == o
  {
    ReadOther(c, "plugin", Str(plugin), k);
    ReadOther(c["plugin" := Str(plugin)], "plugin-opts", Map(o), k);
    ReadOther(c["plugin" := Str(plugin)], "plugin-opts", Map(o), "plugin");
  }

  /** What a link carries of a node with the given plugin. */
  lemma CarriedOfBuilt(name: string, host: string, port: int, cipher: string, password: string, plugin: string,
                       o: Fields)
    requires plugin == "obfs" || plugin == "v2ray-plugin"
    ensures var base := Base(name, host, port, cipher, password);
            Carried(Node(name, "ss", host, port, WithOptions(base, plugin, o)))
              == Node(name, "ss", host, port, WithOptions(base, plugin, if plugin == "obfs" then ObfsOptions(o)
                  else V2rayOptions(o)))
  {
    var base := Base(name, host, port, cipher, password);
    ReadBase(name, host, port, cipher, password);
    ReadWithOptions(base, plugin, o, "server");
    ReadWithOptions(base, plugin, o, "port");
    ReadWithOptions(base, plugin, o, "cipher");
    ReadWithOptions(base, plugin, o, "password");
    hide CS, CI, CMap, ObfsOptions, V2rayOptions;
  }

  lemma CarriedOfPlain(name: string, host: string, port: int, cipher: string, password: string)
    ensures var base := Base(name, host, port, cipher, password);
            Carried(Node(name, "ss", host, port, base)) == Node(name, "ss", host, port, base)
  {
    var base := Base(name, host, port, cipher, password);
    ReadBase(name, host, port, cipher, password);
    assert CS(base, "plugin") == "";
    hide CS, CI, CMap, ObfsOptions, V2rayOptions;
  }

  /** The plugin options, when there are any, are ones the writer writes as they are. */
  predicate PluginWhole(c: Fields)
  {
    && (CS(c, "plugin") == "obfs" ==> WholeObfs(CMap(c, "plugin-opts")))
    && (CS(c, "plugin") == "v2ray-plugin" ==> WholeV2ray(CMap(c, "plugin-opts")))
  }

  lemma OptionsDiffer(c: Fields, plugin: string, o: Fields, p: Fields)
    requires WithOptions(c, plugin, o) == WithOptions(c, plugin, p)
    ensures o == p
  {
    assert WithOptions(c, plugin, o)["plugin-opts"] == Map(o);
    assert WithOptions(c, plugin, p)["plugin-opts"] == Map(p);
  }

  lemma BuiltIsCarriedIff(name: string, host: string, port: int, cipher: string, password: string, spec: string)
    ensures var n := SSNode(name, host, port, cipher, password, spec); Carried(n) == n <==> PluginWhole(n.clash)
  {
    var base := Base(name, host, port, cipher, password);
    var parts := Split(spec, ';');
    var o := OptionsOf(parts[1..]);
    var plugin := if Contains(parts[0], "obfs") then "obfs" else "v2ray-plugin";
    OptionsAreTyped(parts[1..]);
    ObfsWhole(o);
    V2rayWhole(o);
    CarriedOfBuilt(name, host, port, cipher, password, plugin, o);
    CarriedOfPlain(name, host, port, cipher, password);
    ReadBase(name, host, port, cipher, password);
    assert CS(base, "plugin") == "";
    ReadWithOptions(base, plugin, o, "server");
    assert SSNode(name, host, port, cipher, password, spec) == Node(name, "ss", host, port,
      if spec != "" && (Contains(parts[0], "obfs") || Contains(parts[0], "v2ray")) then WithOptions(base, plugin, o)
          else base);
    var written := if plugin == "obfs" then ObfsOptions(o) else V2rayOptions(o);
    if WithOptions(base, plugin, o) == WithOptions(base, plugin, written) { OptionsDiffer(base, plugin, o, written); }
    hide CS, CI, CMap, ObfsOptions, V2rayOptions, WholeObfs, WholeV2ray, Carried, SSNode, WithOptions, Base, OptionsOf,
        Contains, Split, Typed;
  }

  /**
    Whatever link a node was read from, printing and reading it again gives that same node exactly
    when its plugin options are ones the writer writes.
   */
  lemma RereadIff(uri: string)
    requires Parsed(uri).Some? && Fits(Parsed(uri).value)
    ensures Parsed(Link(Parsed(uri).value)) == Parsed(uri) <==> PluginWhole(Parsed(uri).value.clash)
  {
    LinkRead(Parsed(uri).value);
    hide Fits, Link, Carried, PluginWhole, SSNode, BodyOf, ParseQuery, Get, FragmentName, TrimPrefix, Cut, Itoa;
    var cut := Cut(TrimPrefix(uri, "ss://"), '#');
    var b := BodyOf(cut.before);
    var name := if cut.found then FragmentName(cut.after) else "";
    BuiltIsCarriedIff(if name == "" then b.hp.host + ":"
        + Itoa(b.hp.port) else name, b.hp.host, b.hp.port, b.cred.cipher, b.cred.password,
                      Get(ParseQuery(b.query), "plugin"));
  }

  /** The name, the address and the credentials always read the same on the node that comes back. */
  lemma FieldsSurvive(n: Node, k: string)
    requires k in {"server", "cipher", "password"}
    ensures Carried(n).name == n.name && CS(Carried(n).clash, k) == CS(n.clash, k)
            && CI(Carried(n).clash, "port") == CI(n.clash, "port")
  {
    hide CS, CI, CMap, ObfsOptions, V2rayOptions;
    var c := n.clash;
    var base := Base(n.name, CS(c, "server"), CI(c, "port"), CS(c, "cipher"), CS(c, "password"));
    ReadBase(n.name, CS(c, "server"), CI(c, "port"), CS(c, "cipher"), CS(c, "password"));
    assert Carried(n).clash == CarriedPlugin(c, base);
    hide Base;
    var opts := CMap(c, "plugin-opts");
    ReadWithOptions(base, "obfs", ObfsOptions(opts), k);
    ReadWithOptions(base, "obfs", ObfsOptions(opts), "port");
    ReadWithOptions(base, "v2ray-plugin", V2rayOptions(opts), k);
    ReadWithOptions(base, "v2ray-plugin", V2rayOptions(opts), "port");
  }

  // ---------- which fields survive ----------

  /** The two bags say the same about the plugin. */
  predicate SamePlugin(c: Fields, d: Fields)
  {
    var o, p := CMap(c, "plugin-opts"), CMap(d, "plugin-opts");
    && CS(c, "plugin") == CS(d, "plugin")
    && CS(o, "mode") == CS(p, "mode") && CS(o, "host") == CS(p, "host") && CS(o, "path") == CS(p, "path")
    && (CB(o, "tls") <==> CB(p, "tls"))
  }

  /** Every connection field an ss node has reads the same. */
  predicate SameFields(c: Fields, d: Fields)
  {
    && CS(c, "server") == CS(d, "server") && CI(c, "port") == CI(d, "port")
    && CS(c, "cipher") == CS(d, "cipher") && CS(c, "password") == CS(d, "password")
    && SamePlugin(c, d) && SameFlags(c, d)
  }

  /** The plugin fields a link has room for. */
  predicate PluginFits(c: Fields)
  {
    var plugin, o := CS(c, "plugin"), CMap(c, "plugin-opts");
    if plugin == "obfs" then CS(o, "path") == "" && !CB(o, "tls")
    else if plugin == "v2ray-plugin" then CS(o, "mode") != ""
    else plugin == "" && CS(o, "mode") == "" && CS(o, "host") == "" && CS(o, "path") == "" && !CB(o, "tls")
  }

  lemma ReadObfsOptions(o: Fields)
    ensures var p := ObfsOptions(o);
            CS(p, "mode") == CS(o, "mode") && CS(p, "host") == CS(o, "host") && CS(p, "path") == "" && !CB(p, "tls")
  {
  }

  lemma ReadV2rayOptions(o: Fields)
    ensures var p := V2rayOptions(o);
            && CS(p, "mode") == FirstNonEmpty(CS(o, "mode"), "websocket")
            && CS(p, "host") == CS(o, "host") && CS(p, "path") == CS(o, "path") && (CB(p, "tls") <==> CB(o, "tls"))
  {
    var mode, host, path := FirstNonEmpty(CS(o, "mode"), "websocket"), CS(o, "host"), CS(o, "path");
    var c0: Fields := map["mode" := Str(mode)];
    var c1 := if CB(o, "tls") then c0["tls" := Bool(true)] else c0;
    var c2 := if host != "" then c1["host" := Str(host)] else c1;
    assert V2rayOptions(o) == if path != "" then c2["path" := Str(path)] else c2;
  }

  /** What the node that comes back says about its plugin and flags. */
  lemma CarriedReads(n: Node)
    ensures var c, d := n.clash, Carried(n).clash;
            var plugin, o, p := CS(c, "plugin"), CMap(c, "plugin-opts"), CMap(d, "plugin-opts");
            && CS(d, "plugin") == (if plugin == "obfs" || plugin == "v2ray-plugin" then plugin else "")
            && p == (if plugin == "obfs" then ObfsOptions(o) else if plugin == "v2ray-plugin" then V2rayOptions(o)
                else map[])
            && CB(d, "udp") && !CB(d, "tfo") && !CB(d, "skip-cert-verify")
  {
    var c := n.clash;
    var base := Base(n.name, CS(c, "server"), CI(c, "port"), CS(c, "cipher"), CS(c, "password"));
    BaseFlags(n.name, CS(c, "server"), CI(c, "port"), CS(c, "cipher"), CS(c, "password"));
    ReadBase(n.name, CS(c, "server"), CI(c, "port"), CS(c, "cipher"), CS(c, "password"));
    assert Carried(n).clash == CarriedPlugin(c, base);
    hide Base, ObfsOptions, V2rayOptions;
  }

  lemma BaseFlags(name: string, host: string, port: int, cipher: string, password: string)
    ensures var c := Base(name, host, port, cipher, password); CB(c, "udp") && "tfo" !in c && "skip-cert-verify" !in c
  {
  }

  /** The plugin fields come back as they were exactly when a link has room for them. */
  lemma PluginSurvivesIff(n: Node)
    ensures SamePlugin(Carried(n).clash, n.clash) <==> PluginFits(n.clash)
  {
    hide Carried, ObfsOptions, V2rayOptions, CS, CB, CMap;
    CarriedReads(n);
    var o := CMap(n.clash, "plugin-opts");
    ReadObfsOptions(o);
    ReadV2rayOptions(o);
    NoOptions();
  }

  lemma NoOptions()
    ensures CS(map[], "mode") == "" && CS(map[], "host") == "" && CS(map[], "path") == "" && !CB(map[], "tls")
  {
  }

  /**
    Every connection field comes back as it was exactly when the plugin fields fit a link and the flags
    are those every read node has: UDP on, TCP fast open and certificate skipping off.
   */
  lemma FieldsSurviveIff(n: Node)
    ensures SameFields(Carried(n).clash, n.clash) <==> PluginFits(n.clash) && ReadFlags(n.clash)
  {
    PluginSurvivesIff(n);
    CarriedReads(n);
    FieldsSurvive(n, "server");
    FieldsSurvive(n, "cipher");
    FieldsSurvive(n, "password");
    hide Carried, CS, CB, CI, SamePlugin, PluginFits;
  }

  /** A plugin of another kind is lost. */
  lemma OtherPluginIsLost() returns (n: Node)
    ensures Fits(n) && CS(n.clash, "plugin") == "shadow-tls" && CS(Carried(n).clash, "plugin") == ""
  {
    hide Carried, Fits;
    n := Node("n", "ss", "h", 1, map["server" := Str("h"), "port" := Int(1), "cipher" := Str("c"),
        "plugin" := Str("shadow-tls")]);
    CarriedReads(n);
    ShadowFits(n);
  }

  lemma ShadowFits(n: Node)
    requires n.name == "n" && n.typ == "ss"
    requires n.clash == map["server" := Str("h"), "port" := Int(1), "cipher" := Str("c"), "plugin" := Str("shadow-tls")]
    ensures Fits(n)
  {
    GraphIsTrimmed("n");
    hide Trimmed;
    assert CMap(n.clash, "plugin-opts") == map[];
    NoOptions();
  }

  /** So is the missing mode of v2ray-plugin: it comes back as websocket. */
  lemma MissingModeIsFilled(n: Node)
    requires CS(n.clash, "plugin") == "v2ray-plugin" && CS(CMap(n.clash, "plugin-opts"), "mode") == ""
    ensures CS(CMap(Carried(n).clash, "plugin-opts"), "mode") == "websocket"
  {
    CarriedReads(n);
    ReadV2rayOptions(CMap(n.clash, "plugin-opts"));
    hide Carried, V2rayOptions, CS, CMap;
  }

  // ---------- the shape of a link ----------

  /** The part of a link after its first '=', if it has one, has no comma. */
  predicate NoListAfterEquals(line: string) { '=' in line ==> ',' !in line[Index(line, '=') + 1..] }

  lemma EqualsAfter(front: string, back: string)
    requires '=' !in front && ',' !in back
    ensures NoListAfterEquals(front + back)
  {
    var line := front + back;
    var i := Index(line, '=');
    if i >= 0 {
      assert i >= |front|;
      assert forall k :: i < k < |line| ==> line[k] == back[k - |front|];
    }
    hide Index;
  }

  lemma RawAvoidsEquals(s: string)
    requires IsBytes(s)
    ensures '=' !in Encode(RAW_URL, s)
  {
    EncodeIsCode(RAW_URL, s);
    NotSymbol(true);
    hide Encode, IsSymbol;
  }

  lemma LinkShape(n: Node)
    requires Fits(n)
    ensures var l := Link(n);
            && "ss://" <= l && '\n' !in l && NoListAfterEquals(l) && IsBytes(l)
            && l != "" && IsGraph(l[|l| - 1])
  {
    hide CS, CI, PluginParts, PluginQuery, UserInfo, EncodeFragment, NoListAfterEquals;
    var c := n.clash;
    PartsArePlain(c);
    QueryRead(c);
    HostPortChars(c);
    HostPortIsBytes(c);
    UserInfoRead(c);
    NoCode(UserInfo(c));
    UserInfoAvoids(c);
    FragmentRead(n.name);
    PlusIsSpace(n.name);
    EscapedChars(n.name, "%20");
    PluginQueryChars(c);
    hide HostPortOf, PlainOption, FragmentName, AllCode;
    var q := if PluginQuery(c) != "" then "?" + PluginQuery(c) else "";
    var f := EncodeFragment(n.name);
    PieceShape(UserInfo(c), HostPortOf(c), q, f);
    NameIsWritten(n.name);
    LinkPieces(n);
    hide Link, IsEscaped;
  }

  lemma LinkPieces(n: Node)
    ensures Link(n) == "ss://" + UserInfo(n.clash) + "@" + HostPortOf(n.clash)
            + (if PluginQuery(n.clash) != "" then "?" + PluginQuery(n.clash) else "") + "#" + EncodeFragment(n.name)
  {
    hide UserInfo, HostPortOf, PluginQuery, EncodeFragment;
  }

  lemma NameIsWritten(name: string)
    requires name != ""
    ensures EncodeFragment(name) != ""
  {
    PlusIsSpace(name);
    EscapedChars(name, "%20");
    hide EscapeWith, ReplaceChar;
  }

  lemma UserInfoAvoids(c: Fields)
    requires IsBytes(CS(c, "cipher")) && IsBytes(CS(c, "password"))
    ensures '=' !in UserInfo(c)
  {
    hide CS, Encode;
    RawAvoidsEquals(CS(c, "cipher") + ":" + CS(c, "password"));
  }

  lemma HostPortIsBytes(c: Fields)
    requires HostFits(CS(c, "server"))
    ensures IsBytes(HostPortOf(c))
  {
    ItoaChars(CI(c, "port"));
    hide CS, Itoa;
  }

  lemma PluginQueryChars(c: Fields)
    ensures IsBytes(PluginQuery(c))
  {
    hide PluginParts, EscapeWith;
    if PluginParts(c) != [] { EscapedChars(Join(PluginParts(c), ";"), "+"); }
    hide Join;
  }

  lemma PieceShape(user: string, hp: string, q: string, f: string)
    requires AllCode(true, user) && '=' !in user && '=' !in hp && '\n' !in hp && '\n' !in q && ',' !in q && IsEscaped(f)
            && f != ""
    requires IsBytes(hp) && IsBytes(q)
    ensures var l := "ss://" + user + "@" + hp + q + "#" + f;
            && "ss://" <= l && '\n' !in l && NoListAfterEquals(l) && IsBytes(l) && l != "" && IsGraph(l[|l| - 1])
  {
    NoCode(user);
    CodeIsBytes(user);
    hide AllCode;
    EscapedAvoids(f);
    assert IsEscapedChar(f[|f| - 1]);
    var front, back := "ss://" + user + "@" + hp, q + "#" + f;
    assert "ss://" + user + "@" + hp + q + "#" + f == front + back;
    EqualsAfter(front, back);
    hide NoListAfterEquals;
    assert IsBytes(f);
  }

  lemma CodeIsBytes(t: string)
    requires AllCode(true, t)
    ensures IsBytes(t)
  {
    forall i | 0 <= i < |t|
      ensures t[i] as int < 256
    {
      assert IsCode(true, t[i]);
    }
  }

  method ShareLink(n: Node) returns (link: string)
    ensures link == Link(n)
  {
    hide CS, CI, Encode, PluginQuery, ReplaceChar, QueryEscape;
    var c := n.clash;
    var hostport := CS(c, "server") + ":" + Itoa(CI(c, "port"));
    var frag := "#" + EncodeFragment(n.name);
    var userinfo := Encode(RAW_URL, CS(c, "cipher") + ":" + CS(c, "password"));
    link := "ss://" + userinfo + "@" + hostport;
    var q := SSPluginQuery(c);
    if q != "" {
      link := link + ("?" + q);
    } else {
      assert link + "" == link;
    }
    link := link + frag;
    assert link == Link(n) by { Regroup("ss://" + userinfo + "@" + hostport + if q != "" then "?"
        + q else "", "#", EncodeFragment(n.name)); }
  }
}
