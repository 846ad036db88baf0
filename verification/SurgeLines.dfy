/**
  Proxy lines of the Surge dialect: printed by internal/generator/surge.go, read by
  internal/parser/surge.go. The protocols both sides know are ss, vmess, trojan and hysteria2.
 */
module SurgeLines {
  import opened Wrappers
  import opened Text
  import opened Decimal
  import opened Values
  import opened Accessors
  import opened LinkText

  // ---------- what a line says ----------

  datatype Ws = NoWs | Ws(path: string, host: string)

  /** The fields of a node that its line prints, after the type, the server and the port. */
  datatype Facts =
    | SS(cipher: string, password: string, udp: bool, obfs: bool, mode: string, host: string, tfo: bool)
    | VMess(uuid: string, aead: bool, tls: bool, sni: string, skip: bool, ws: Ws, udp: bool, tfo: bool)
    | Trojan(password: string, sni: string, skip: bool, ws: Ws, udp: bool, tfo: bool)
    | Hysteria2(password: string, sni: string, skip: bool)

  datatype Opt = Opt(key: string, value: string)

  function When(b: bool, key: string, value: string): seq<Opt> { if b then [Opt(key, value)] else [] }

  function WsOf(c: Fields): Ws
  {
    if CS(c, "network") != "ws" then NoWs
    else Ws(CS(CMap(c, "ws-opts"), "path"), CS(CMap(CMap(c, "ws-opts"), "headers"), "Host"))
  }

  predicate HasTls(c: Fields) { CB(c, "tls") || |CMap(c, "reality-opts")| > 0 }

  function FactsOf(typ: string, c: Fields): Option<Facts>
  {
    if typ == "ss" then
      var obfs, o := CS(c, "plugin") == "obfs", CMap(c, "plugin-opts");
      Some(SS(CS(c, "cipher"), CS(c, "password"), CB(c, "udp"), obfs,
              if obfs then CS(o, "mode") else "", if obfs then CS(o, "host") else "", CB(c, "tfo")))
    else if typ == "vmess" then
      var tls := HasTls(c);
      Some(VMess(CS(c, "uuid"), CI(c, "alterId") == 0, tls, if tls then GetSNI(c) else "", tls
          && CB(c, "skip-cert-verify"),
                 WsOf(c), CB(c, "udp"), CB(c, "tfo")))
    else if typ == "trojan" then
      Some(Trojan(CS(c, "password"), GetSNI(c), CB(c, "skip-cert-verify"), WsOf(c), CB(c, "udp"), CB(c, "tfo")))
    else if typ == "hysteria2" then Some(Hysteria2(CS(c, "password"), GetSNI(c), CB(c, "skip-cert-verify")))
    else None
  }

  function WsOpts(w: Ws, before: seq<Opt>): seq<Opt>
  {
    if w.NoWs? then before
    else
      before + When(true, "ws", "true") + When(w.path != "", "ws-path", w.path)
      + When(w.host != "", "ws-headers", "Host:" + w.host)
  }

  function OptsOf(f: Facts): seq<Opt>
  {
    match f
    case SS(cipher, password, udp, obfs, mode, host, tfo) =>
      [] + When(true, "encrypt-method", cipher) + When(true, "password", password) + When(udp, "udp-relay", "true")
        + When(obfs, "obfs", mode) + When(obfs && host != "", "obfs-host", host) + When(tfo, "tfo", "true")
    case VMess(uuid, aead, tls, sni, skip, ws, udp, tfo) =>
      WsOpts(ws, [] + When(true, "username", uuid) + When(aead, "vmess-aead", "true") + When(tls, "tls", "true")
                   + When(tls && sni != "", "sni", sni) + When(tls && skip, "skip-cert-verify", "true"))
        + When(udp, "udp-relay", "true") + When(tfo, "tfo", "true")
    case Trojan(password, sni, skip, ws, udp, tfo) =>
      WsOpts(ws, [] + When(true, "password", password) + When(sni != "", "sni", sni)
        + When(skip, "skip-cert-verify", "true"))
        + When(udp, "udp-relay", "true") + When(tfo, "tfo", "true")
    case Hysteria2(password, sni, skip) =>
      [] + When(true, "password", password) + When(sni != "", "sni", sni) + When(skip, "skip-cert-verify", "true")
  }

  function OptText(o: Opt): string { o.key + "=" + o.value }

  function OptTexts(os: seq<Opt>): (r: seq<string>)
    ensures |r| == |os|
  {
    seq(|os|, i requires 0 <= i < |os| => OptText(os[i]))
  }

  /** Lines of the protocols this model leaves open. */
  type OtherLines = Node -> Option<string>

  function PrintedLine(name: string, typ: string, server: string, port: int, f: Facts): string
  {
    name + " = " + Join([typ, server, Itoa(port)] + OptTexts(OptsOf(f)), ", ")
  }

  function LineOf(n: Node, other: OtherLines): Option<string>
  {
    var f := FactsOf(n.typ, n.clash);
    if f.Some? then Some(PrintedLine(n.name, n.typ, CS(n.clash, "server"), CI(n.clash, "port"), f.value)) else other(n)
  }

  // ---------- printing, as the code does it ----------

  /** The literal texts of the options. */
  lemma Keys()
    ensures "tls" + "=" + "true" == "tls=true" && "sni" + "=" == "sni="
            && "skip-cert-verify" + "=" + "true" == "skip-cert-verify=true"
    ensures "ws" + "=" + "true" == "ws=true" && "ws-path" + "=" == "ws-path="
            && "udp-relay" + "=" + "true" == "udp-relay=true"
    ensures "tfo" + "=" + "true" == "tfo=true" && "password" + "=" == "password=" && "username" + "=" == "username="
    ensures "encrypt-method" + "=" == "encrypt-method=" && "obfs" + "=" == "obfs=" && "obfs-host" + "=" == "obfs-host="
    ensures "vmess-aead" + "=" + "true" == "vmess-aead=true"
  {
  }

  lemma TextOfWhen(os: seq<Opt>, b: bool, key: string, value: string)
    ensures OptTexts(os + When(b, key, value)) == OptTexts(os) + if b then [key + "=" + value] else []
  {
    if b {
      assert OptTexts(os + [Opt(key, value)]) == OptTexts(os) + [OptText(Opt(key, value))];
    } else {
      assert os + [] == os;
    }
  }

  method WSParts(c: Fields, before: seq<string>, ghost os: seq<Opt>) returns (parts: seq<string>)
    requires before == OptTexts(os)
    ensures parts == OptTexts(WsOpts(WsOf(c), os))
  {
    hide CS, CMap, OptTexts, When;
    Keys();
    var ws := CMap(c, "ws-opts");
    var path, host := CS(ws, "path"), CS(CMap(ws, "headers"), "Host");
    parts := before;
    if CS(c, "network") != "ws" {
      return;
    }
    var o1 := os + When(true, "ws", "true");
    var o2 := o1 + When(path != "", "ws-path", path);
    TextOfWhen(os, true, "ws", "true");
    TextOfWhen(o1, path != "", "ws-path", path);
    TextOfWhen(o2, host != "", "ws-headers", "Host:" + host);
    assert "ws-headers" + "=" + ("Host:" + host) == "ws-headers=Host:" + host by { HostText(host); }
    parts := parts + ["ws=true"];
    if path != "" { parts := parts + ["ws-path=" + path]; }
    if host != "" { parts := parts + ["ws-headers=Host:" + host]; }
  }

  lemma HostText(host: string)
    ensures "ws-headers" + "=" + ("Host:" + host) == "ws-headers=Host:" + host
  {
    assert "ws-headers" + "=" + "Host:" == "ws-headers=Host:";
  }

  /** One optional part appended. */
  method Append(parts: seq<string>, b: bool, key: string, value: string, text: string, ghost os: seq<Opt>)
    returns (r: seq<string>)
    requires parts == OptTexts(os) && (b ==> text == key + "=" + value)
    ensures r == OptTexts(os + When(b, key, value))
  {
    TextOfWhen(os, b, key, value);
    r := parts;
    if b { r := r + [text]; }
  }

  method SSParts(c: Fields) returns (parts: seq<string>)
    ensures FactsOf("ss", c).Some? && parts == OptTexts(OptsOf(FactsOf("ss", c).value))
  {
    hide CS, CB, CMap, OptTexts, When;
    Keys();
    NoTexts();
    var o := CMap(c, "plugin-opts");
    var obfs, mode, h := CS(c, "plugin") == "obfs", CS(o, "mode"), CS(o, "host");
    ghost var os: seq<Opt> := [];
    parts := [];
    parts := Append(parts, true, "encrypt-method", CS(c, "cipher"), "encrypt-method=" + CS(c, "cipher"), os);
    os := os + When(true, "encrypt-method", CS(c, "cipher"));
    parts := Append(parts, true, "password", CS(c, "password"), "password=" + CS(c, "password"), os);
    os := os + When(true, "password", CS(c, "password"));
    parts := Append(parts, CB(c, "udp"), "udp-relay", "true", "udp-relay=true", os);
    os := os + When(CB(c, "udp"), "udp-relay", "true");
    parts := Append(parts, obfs, "obfs", mode, "obfs=" + mode, os);
    os := os + When(obfs, "obfs", mode);
    parts := Append(parts, obfs && h != "", "obfs-host", h, "obfs-host=" + h, os);
    os := os + When(obfs && h != "", "obfs-host", h);
    parts := Append(parts, CB(c, "tfo"), "tfo", "true", "tfo=true", os);
    WhenUnused();
  }

  lemma NoTexts()
    ensures OptTexts([]) == []
  {
  }

  method VMessParts(c: Fields) returns (parts: seq<string>)
    ensures FactsOf("vmess", c).Some? && parts == OptTexts(OptsOf(FactsOf("vmess", c).value))
  {
    hide CS, CB, CI, CMap, OptTexts, When, GetSNI, HasTls, WsOf, WsOpts;
    Keys();
    NoTexts();
    var tls, sni, skip := HasTls(c), GetSNI(c), CB(c, "skip-cert-verify");
    ghost var os: seq<Opt> := [];
    parts := [];
    parts := Append(parts, true, "username", CS(c, "uuid"), "username=" + CS(c, "uuid"), os);
    os := os + When(true, "username", CS(c, "uuid"));
    parts := Append(parts, CI(c, "alterId") == 0, "vmess-aead", "true", "vmess-aead=true", os);
    os := os + When(CI(c, "alterId") == 0, "vmess-aead", "true");
    parts := Append(parts, tls, "tls", "true", "tls=true", os);
    os := os + When(tls, "tls", "true");
    parts := Append(parts, tls && sni != "", "sni", sni, "sni=" + sni, os);
    os := os + When(tls && sni != "", "sni", sni);
    parts := Append(parts, tls && skip, "skip-cert-verify", "true", "skip-cert-verify=true", os);
    os := os + When(tls && skip, "skip-cert-verify", "true");
    ghost var f := FactsOf("vmess", c).value;
    WhenUnused();
    parts := WSParts(c, parts, os);
    os := WsOpts(WsOf(c), os);
    parts := Append(parts, CB(c, "udp"), "udp-relay", "true", "udp-relay=true", os);
    os := os + When(CB(c, "udp"), "udp-relay", "true");
    parts := Append(parts, CB(c, "tfo"), "tfo", "true", "tfo=true", os);
  }

  /** An absent option does not depend on its value. */
  lemma WhenUnused()
    ensures forall k, v, w :: When(false, k, v) == When(false, k, w)
  {
  }

  method TrojanParts(c: Fields) returns (parts: seq<string>)
    ensures FactsOf("trojan", c).Some? && parts == OptTexts(OptsOf(FactsOf("trojan", c).value))
  {
    hide CS, CB, CMap, OptTexts, When, GetSNI, WsOf, WsOpts;
    Keys();
    NoTexts();
    var sni := GetSNI(c);
    ghost var os: seq<Opt> := [];
    parts := [];
    parts := Append(parts, true, "password", CS(c, "password"), "password=" + CS(c, "password"), os);
    os := os + When(true, "password", CS(c, "password"));
    parts := Append(parts, sni != "", "sni", sni, "sni=" + sni, os);
    os := os + When(sni != "", "sni", sni);
    parts := Append(parts, CB(c, "skip-cert-verify"), "skip-cert-verify", "true", "skip-cert-verify=true", os);
    os := os + When(CB(c, "skip-cert-verify"), "skip-cert-verify", "true");
    parts := WSParts(c, parts, os);
    os := WsOpts(WsOf(c), os);
    parts := Append(parts, CB(c, "udp"), "udp-relay", "true", "udp-relay=true", os);
    os := os + When(CB(c, "udp"), "udp-relay", "true");
    parts := Append(parts, CB(c, "tfo"), "tfo", "true", "tfo=true", os);
  }

  method Hysteria2Parts(c: Fields) returns (parts: seq<string>)
    ensures FactsOf("hysteria2", c).Some? && parts == OptTexts(OptsOf(FactsOf("hysteria2", c).value))
  {
    hide CS, CB, OptTexts, When, GetSNI;
    Keys();
    NoTexts();
    var sni := GetSNI(c);
    ghost var os: seq<Opt> := [];
    parts := [];
    parts := Append(parts, true, "password", CS(c, "password"), "password=" + CS(c, "password"), os);
    os := os + When(true, "password", CS(c, "password"));
    parts := Append(parts, sni != "", "sni", sni, "sni=" + sni, os);
    os := os + When(sni != "", "sni", sni);
    parts := Append(parts, CB(c, "skip-cert-verify"), "skip-cert-verify", "true", "skip-cert-verify=true", os);
  }

  /** surgeNodeLine for the Surge flavour. */
  method NodeLine(n: Node, other: OtherLines) returns (line: Option<string>)
    ensures line == LineOf(n, other)
  {
    hide CS, CI, Itoa, Join, OptTexts, OptsOf, FactsOf;
    var c := n.clash;
    var server, port := CS(c, "server"), Itoa(CI(c, "port"));
    var head := n.name + " = ";
    var parts;
    match n.typ {
      case "ss" => parts := SSParts(c);
      case "vmess" => parts := VMessParts(c);
      case "trojan" => parts := TrojanParts(c);
      case "hysteria2" => parts := Hysteria2Parts(c);
      case _ =>
        NoFacts(n.typ, c);
        return other(n);
    }
    return Some(head + Join([n.typ, server, port] + parts, ", "));
  }

  lemma NoFacts(typ: string, c: Fields)
    requires typ !in {"ss", "vmess", "trojan", "hysteria2"}
    ensures FactsOf(typ, c).None?
  {
  }

  // ---------- reading ----------

  type Params = map<string, string>

  function P(m: Params, k: string): string { if k in m then m[k] else "" }

  /** One token of a line's tail; None for an empty or a positional one. */
  function TokenOpt(raw: string): Option<Opt>
  {
    var token := TrimSpace(raw);
    var cut := Cut(token, '=');
    if token == "" || !cut.found then None else Some(Opt(ToLower(TrimSpace(cut.before)), TrimSpace(cut.after)))
  }

  function ParamsOf(extra: seq<string>): Params
  {
    if extra == [] then map[] else
    var n := |extra| - 1;
    var before, o := ParamsOf(extra[..n]), TokenOpt(extra[n]);
    if o.Some? then before[o.value.key := o.value.value] else before
  }

  function SetIf(c: Fields, b: bool, k: string): Fields { if b then c[k := Bool(true)] else c }

  function ReadSS(c: Fields, m: Params): Fields
  {
    var c2 := With(With(c, "cipher", Str(P(m, "encrypt-method"))), "password", Str(P(m, "password")));
    var c4 := SetIf(SetIf(c2, IsYes(P(m, "udp-relay")), "udp"), IsYes(P(m, "tfo")), "tfo");
    if P(m, "obfs") != "" then c4["plugin" := Str("obfs")]["plugin-opts" := Map(map["mode" := Str(P(m, "obfs")),
        "host" := Str(P(m, "obfs-host"))])]
    else c4
  }

  function WsFields(m: Params): Fields
  {
    var path, headers := P(m, "ws-path"), P(m, "ws-headers");
    var o: Fields := if path != "" then map["path" := Str(path)] else map[];
    var cut := Cut(headers, ':');
    if headers != "" && cut.found && EqualFold(TrimSpace(cut.before), "host") then
      o["headers" := Map(map["Host" := Str(TrimSpace(cut.after))])]
    else o
  }

  function ReadWs(c: Fields, m: Params): Fields
  {
    if IsYes(P(m, "ws")) then c["network" := Str("ws")]["ws-opts" := Map(WsFields(m))] else c
  }

  function ReadVMess(c: Fields, m: Params): Fields
  {
    var c1 := With(c, "uuid", Str(FirstNonEmpty(P(m, "username"), P(m, "uuid"))))["cipher" := Str("auto")];
    var c2 := SetIf(c1, IsYes(P(m, "tfo")), "tfo");
    var c3 := if IsYes(P(m, "tls")) || P(m, "sni") != "" then
        SetIf(With(c2["tls" := Bool(true)], "sni", Str(P(m, "sni"))), IsYes(P(m, "skip-cert-verify")),
            "skip-cert-verify")
      else c2;
    ReadWs(c3, m)
  }

  function ReadTrojan(c: Fields, m: Params): Fields
  {
    var c1 := With(c, "password", Str(P(m, "password")))["udp" := Bool(true)]["tls" := Bool(true)];
    var c2 := SetIf(With(c1, "sni", Str(P(m, "sni"))), IsYes(P(m, "skip-cert-verify")), "skip-cert-verify");
    ReadWs(SetIf(c2, IsYes(P(m, "tfo")), "tfo"), m)
  }

  function ReadHysteria2(c: Fields, m: Params): Fields
  {
    var c1 := With(With(c, "password", Str(P(m, "password"))), "sni", Str(P(m, "sni")));
    SetIf(c1, IsYes(P(m, "skip-cert-verify")), "skip-cert-verify")
  }

  /** Lines of the types this model leaves open: type, name, server, port and the other tokens. */
  type OtherReader = (string, string, string, int, seq<string>) -> Option<Node>

  predicate IsKnown(typ: string) { typ == "ss" || typ == "vmess" || typ == "trojan" || typ == "hysteria2" }

  function FieldsRead(typ: string, c: Fields, m: Params): Fields
  {
    if typ == "ss" then ReadSS(c, m)
    else if typ == "vmess" then ReadVMess(c, m)
    else if typ == "trojan" then ReadTrojan(c, m)
    else ReadHysteria2(c, m)
  }

  /** parseSurgeLine. */
  function NodeRead(typ: string, name: string, server: string, port: int, extra: seq<string>,
                    other: OtherReader): Option<Node>
  {
    if name == "" || server == "" || port == 0 then None
    else if IsKnown(typ) then Some(Node(name, typ, server, port,
        FieldsRead(typ, Seed(typ, name, server, port), ParamsOf(extra))))
    else other(typ, name, server, port, extra)
  }

  function LineRead(line: string, other: OtherReader): Option<Node>
  {
    var cut := Cut(line, '=');
    var tokens := Split(cut.after, ',');
    if !cut.found || |tokens| < 3 then None
    else
      NodeRead(ToLower(TrimSpace(tokens[0])), TrimSpace(cut.before), TrimSpace(tokens[1]), AtoiPort(tokens[2]),
          tokens[3..], other)
  }

  method ReadParams(extra: seq<string>) returns (params: Params)
    ensures params == ParamsOf(extra)
  {
    hide TrimSpace, ToLower, Index;
    params := map[];
    for i := 0 to |extra|
      invariant params == ParamsOf(extra[..i])
    {
      assert extra[..i + 1][..i] == extra[..i];
      var token := TrimSpace(extra[i]);
      if token == "" {
        continue;
      }
      var eq := Index(token, '=');
      if eq >= 0 {
        params := params[ToLower(TrimSpace(token[..eq])) := TrimSpace(token[eq + 1..])];
      }
    }
    assert extra[..|extra|] == extra;
  }

  method SetWs(p: Proxy, m: Params)
    modifies p`Clash
    ensures p.Clash == ReadWs(old(p.Clash), m)
  {
    hide TrimSpace, EqualFold, IsYes, Cut, P;
    if IsYes(P(m, "ws")) {
      p.Set("network", Str("ws"));
      var wsOpts: Fields := map[];
      var path := P(m, "ws-path");
      if path != "" {
        wsOpts := wsOpts["path" := Str(path)];
      }
      var headers := P(m, "ws-headers");
      if headers != "" {
        var cut := Cut(headers, ':');
        if cut.found && EqualFold(TrimSpace(cut.before), "host") {
          wsOpts := wsOpts["headers" := Map(map["Host" := Str(TrimSpace(cut.after))])];
        }
      }
      p.Set("ws-opts", Map(wsOpts));
    }
  }

  method SetFields(p: Proxy, typ: string, m: Params)
    requires IsKnown(typ)
    modifies p`Clash
    ensures p.Clash == FieldsRead(typ, old(p.Clash), m)
  {
    hide IsYes, P, ReadWs, FirstNonEmpty;
    if typ == "ss" {
      p.Set("cipher", Str(P(m, "encrypt-method")));
      p.Set("password", Str(P(m, "password")));
      if IsYes(P(m, "udp-relay")) { p.SetRaw("udp", Bool(true)); }
      if IsYes(P(m, "tfo")) { p.SetRaw("tfo", Bool(true)); }
      var obfs := P(m, "obfs");
      if obfs != "" {
        p.Set("plugin", Str("obfs"));
        p.Set("plugin-opts", Map(map["mode" := Str(obfs), "host" := Str(P(m, "obfs-host"))]));
      }
    } else if typ == "vmess" {
      p.Set("uuid", Str(FirstNonEmpty(P(m, "username"), P(m, "uuid"))));
      p.Set("cipher", Str("auto"));
      if IsYes(P(m, "tfo")) { p.SetRaw("tfo", Bool(true)); }
      if IsYes(P(m, "tls")) || P(m, "sni") != "" {
        p.SetRaw("tls", Bool(true));
        p.Set("sni", Str(P(m, "sni")));
        if IsYes(P(m, "skip-cert-verify")) { p.SetRaw("skip-cert-verify", Bool(true)); }
      }
      SetWs(p, m);
    } else if typ == "trojan" {
      p.Set("password", Str(P(m, "password")));
      p.SetRaw("udp", Bool(true));
      p.SetRaw("tls", Bool(true));
      var sni := P(m, "sni");
      if sni != "" { p.Set("sni", Str(sni)); }
      if IsYes(P(m, "skip-cert-verify")) { p.SetRaw("skip-cert-verify", Bool(true)); }
      if IsYes(P(m, "tfo")) { p.SetRaw("tfo", Bool(true)); }
      SetWs(p, m);
    } else {
      p.Set("password", Str(P(m, "password")));
      var sni := P(m, "sni");
      if sni != "" { p.Set("sni", Str(sni)); }
      if IsYes(P(m, "skip-cert-verify")) { p.SetRaw("skip-cert-verify", Bool(true)); }
    }
  }

  /** parseSurgeLine; null stands for an error. */
  method ParseLine(typ: string, name: string, server: string, port: int, extra: seq<string>, other: OtherReader)
    returns (p: Proxy?)
    ensures p == null <==> NodeRead(typ, name, server, port, extra, other) == None
    ensures p != null ==> fresh(p) && NodeRead(typ, name, server, port, extra, other) == Some(p.View())
  {
    hide FieldsRead, ParamsOf;
    if name == "" || server == "" || port == 0 {
      return null;
    }
    if !IsKnown(typ) {
      var n := other(typ, name, server, port, extra);
      if n.None? {
        return null;
      }
      p := new Proxy.Of(n.value);
      return;
    }
    var params := ReadParams(extra);
    var node := new Proxy(typ, name, server, port);
    SetFields(node, typ, params);
    p := node;
  }

  // ---------- reading back what was printed ----------

  function Table(os: seq<Opt>): Params
  {
    if os == [] then map[] else Table(os[..|os| - 1])[os[|os| - 1].key := os[|os| - 1].value]
  }

  /** An option whose key and value a comma-separated list can carry. */
  predicate OptFits(o: Opt)
  {
    && o.key != "" && (forall i :: 0 <= i < |o.key| ==>
        IsGraph(o.key[i]) && o.key[i] != '=' && o.key[i] != ',' && !('A' <= o.key[i] <= 'Z'))
    && Trimmed(o.value) && ',' !in o.value
  }

  function Spaced(parts: seq<string>): (r: seq<string>)
    ensures |r| == |parts|
  {
    seq(|parts|, i requires 0 <= i < |parts| => " " + parts[i])
  }

  lemma {:induction false} JoinSpaced(parts: seq<string>)
    requires parts != []
    ensures Join(Spaced(parts), ",") == " " + Join(parts, ", ")
  {
    if |parts| > 1 {
      var rest := parts[1..];
      JoinSpaced(rest);
      assert Spaced(parts)[1..] == Spaced(rest);
      var a, b := parts[0], Join(rest, ", ");
      assert Join(parts, ", ") == a + ", " + b;
      assert Join(Spaced(parts), ",") == " " + a + "," + (" " + b);
      assert " " + a + "," + (" " + b) == " " + (a + ", " + b);
    }
  }

  /** The tokens of a printed line. */
  lemma SplitSpaced(parts: seq<string>)
    requires parts != [] && forall i :: 0 <= i < |parts| ==> ',' !in parts[i]
    ensures Split(" " + Join(parts, ", "), ',') == Spaced(parts)
  {
    JoinSpaced(parts);
    assert forall i :: 0 <= i < |parts| ==> ',' !in Spaced(parts)[i];
    hide Join;
    SplitJoin(Spaced(parts), ',');
    hide Split;
  }

  /** A trimmed text comes out of a space in front, or behind. */
  lemma TrimSpaced(s: string)
    requires Trimmed(s)
    ensures TrimSpace(" " + s) == s && TrimSpace(s + " ") == s
  {
    assert (" " + s)[1..] == s;
    TrimmedIsFixed(s);
    assert TrimLeft(" " + s) == TrimLeft(s);
    assert (s + " ")[..|s|] == s;
    assert TrimRight(s + " ") == TrimRight(s) == s;
    if s != "" {
      StartSpaced(s);
      assert TrimLeft(s + " ") == s + " ";
    } else {
      assert s + " " == " " + s;
    }
    hide TrimLeft, TrimRight;
  }

  lemma StartSpaced(s: string)
    requires s != "" && SpacePrefix(s) == 0
    ensures SpacePrefix(s + " ") == 0
  {
    var t := s + " ";
    assert forall i :: 0 <= i < |s| ==> t[i] == s[i];
  }

  lemma ReadOpt(o: Opt)
    requires OptFits(o)
    ensures TokenOpt(" " + OptText(o)) == Some(o) && ',' !in OptText(o)
  {
    OptIsTrimmed(o);
    TrimSpaced(OptText(o));
    KeyReads(o.key);
    TrimmedIsFixed(o.value);
    hide TrimSpace, ToLower, Trimmed;
    CutAt(o.key, '=', o.value);
    assert o.key + ['='] + o.value == OptText(o);
    hide Cut;
  }

  lemma KeyReads(key: string)
    requires key != "" && forall i :: 0 <= i < |key| ==> IsGraph(key[i]) && key[i] != '=' && !('A' <= key[i] <= 'Z')
    ensures ToLower(TrimSpace(key)) == key && '=' !in key
  {
    GraphIsTrimmed(key);
    hide TrimSpace;
    assert ToLower(key) == key;
  }

  lemma OptIsTrimmed(o: Opt)
    requires OptFits(o)
    ensures Trimmed(OptText(o)) && OptText(o) != ""
  {
    var t := OptText(o);
    assert t[0] == o.key[0];
    EndAfterEquals(o.key + "=", o.value);
    hide SpaceSuffix;
    assert IsGraph(t[0]);
  }

  lemma EndAfterEquals(p: string, v: string)
    requires p != "" && p[|p| - 1] == '=' && SpaceSuffix(v) == 0
    ensures SpaceSuffix(p + v) == 0
  {
    var s := p + v;
    assert forall k :: |p| <= k < |s| ==> s[k] == v[k - |p|];
    assert s[|p| - 1] == '=';
  }

  lemma {:induction false} ParamsAreTable(os: seq<Opt>)
    requires forall i :: 0 <= i < |os| ==> OptFits(os[i])
    ensures ParamsOf(Spaced(OptTexts(os))) == Table(os)
  {
    hide TokenOpt, OptFits, OptText;
    if os != [] {
      var n := |os| - 1;
      ParamsAreTable(os[..n]);
      ReadOpt(os[n]);
      assert Spaced(OptTexts(os))[..n] == Spaced(OptTexts(os[..n]));
    }
  }

  lemma LookupWhen(os: seq<Opt>, b: bool, k: string, v: string, j: string)
    ensures P(Table(os + When(b, k, v)), j) == if b && j == k then v else P(Table(os), j)
  {
    if b {
      assert (os + [Opt(k, v)])[..|os|] == os;
    } else {
      assert os + [] == os;
    }
  }

  function WsParam(w: Ws, j: string, otherwise: string): string
  {
    if w.Ws? && j == "ws-headers" && w.host != "" then "Host:" + w.host
    else if w.Ws? && j == "ws-path" && w.path != "" then w.path
    else if w.Ws? && j == "ws" then "true"
    else otherwise
  }

  lemma LookupWs(os: seq<Opt>, w: Ws, j: string)
    ensures P(Table(WsOpts(w, os)), j) == WsParam(w, j, P(Table(os), j))
  {
    hide P, Table, When;
    if w.Ws? {
      var o1 := os + When(true, "ws", "true");
      var o2 := o1 + When(w.path != "", "ws-path", w.path);
      LookupWhen(os, true, "ws", "true", j);
      LookupWhen(o1, w.path != "", "ws-path", w.path, j);
      LookupWhen(o2, w.host != "", "ws-headers", "Host:" + w.host, j);
    }
  }

  lemma LookupNone(j: string)
    ensures P(Table([]), j) == ""
  {
  }

  /** What the reader finds under each key of a printed line. */
  lemma LookupSS(f: Facts, j: string)
    requires f.SS?
    ensures P(Table(OptsOf(f)), j) ==
            if f.tfo && j == "tfo" then "true"
            else if f.obfs && f.host != "" && j == "obfs-host" then f.host
            else if f.obfs && j == "obfs" then f.mode
            else if f.udp && j == "udp-relay" then "true"
            else if j == "password" then f.password
            else if j == "encrypt-method" then f.cipher
            else ""
  {
    hide P, Table, When;
    LookupNone(j);
    var o1 := [] + When(true, "encrypt-method", f.cipher);
    var o2 := o1 + When(true, "password", f.password);
    var o3 := o2 + When(f.udp, "udp-relay", "true");
    var o4 := o3 + When(f.obfs, "obfs", f.mode);
    var o5 := o4 + When(f.obfs && f.host != "", "obfs-host", f.host);
    LookupWhen([], true, "encrypt-method", f.cipher, j);
    LookupWhen(o1, true, "password", f.password, j);
    LookupWhen(o2, f.udp, "udp-relay", "true", j);
    LookupWhen(o3, f.obfs, "obfs", f.mode, j);
    LookupWhen(o4, f.obfs && f.host != "", "obfs-host", f.host, j);
    LookupWhen(o5, f.tfo, "tfo", "true", j);
  }

  lemma LookupVMess(f: Facts, j: string)
    requires f.VMess?
    ensures P(Table(OptsOf(f)), j) ==
            if f.tfo && j == "tfo" then "true"
            else if f.udp && j == "udp-relay" then "true"
            else WsParam(f.ws, j,
              if f.tls && f.skip && j == "skip-cert-verify" then "true"
              else if f.tls && f.sni != "" && j == "sni" then f.sni
              else if f.tls && j == "tls" then "true"
              else if f.aead && j == "vmess-aead" then "true"
              else if j == "username" then f.uuid
              else "")
  {
    hide P, Table, When, WsOpts, WsParam;
    LookupNone(j);
    var o1 := [] + When(true, "username", f.uuid);
    var o2 := o1 + When(f.aead, "vmess-aead", "true");
    var o3 := o2 + When(f.tls, "tls", "true");
    var o4 := o3 + When(f.tls && f.sni != "", "sni", f.sni);
    var o5 := o4 + When(f.tls && f.skip, "skip-cert-verify", "true");
    var o6 := WsOpts(f.ws, o5);
    LookupWhen([], true, "username", f.uuid, j);
    LookupWhen(o1, f.aead, "vmess-aead", "true", j);
    LookupWhen(o2, f.tls, "tls", "true", j);
    LookupWhen(o3, f.tls && f.sni != "", "sni", f.sni, j);
    LookupWhen(o4, f.tls && f.skip, "skip-cert-verify", "true", j);
    LookupWs(o5, f.ws, j);
    LookupWhen(o6, f.udp, "udp-relay", "true", j);
    LookupWhen(o6 + When(f.udp, "udp-relay", "true"), f.tfo, "tfo", "true", j);
  }

  lemma LookupTrojan(f: Facts, j: string)
    requires f.Trojan?
    ensures P(Table(OptsOf(f)), j) ==
            if f.tfo && j == "tfo" then "true"
            else if f.udp && j == "udp-relay" then "true"
            else WsParam(f.ws, j,
              if f.skip && j == "skip-cert-verify" then "true"
              else if f.sni != "" && j == "sni" then f.sni
              else if j == "password" then f.password
              else "")
  {
    hide P, Table, When, WsOpts, WsParam;
    LookupNone(j);
    var o1 := [] + When(true, "password", f.password);
    var o2 := o1 + When(f.sni != "", "sni", f.sni);
    var o3 := o2 + When(f.skip, "skip-cert-verify", "true");
    var o4 := WsOpts(f.ws, o3);
    LookupWhen([], true, "password", f.password, j);
    LookupWhen(o1, f.sni != "", "sni", f.sni, j);
    LookupWhen(o2, f.skip, "skip-cert-verify", "true", j);
    LookupWs(o3, f.ws, j);
    LookupWhen(o4, f.udp, "udp-relay", "true", j);
    LookupWhen(o4 + When(f.udp, "udp-relay", "true"), f.tfo, "tfo", "true", j);
  }

  lemma LookupHysteria2(f: Facts, j: string)
    requires f.Hysteria2?
    ensures P(Table(OptsOf(f)), j) ==
            if f.skip && j == "skip-cert-verify" then "true"
            else if f.sni != "" && j == "sni" then f.sni
            else if j == "password" then f.password
            else ""
  {
    hide P, Table, When;
    LookupNone(j);
    var o1 := [] + When(true, "password", f.password);
    var o2 := o1 + When(f.sni != "", "sni", f.sni);
    LookupWhen([], true, "password", f.password, j);
    LookupWhen(o1, f.sni != "", "sni", f.sni, j);
    LookupWhen(o2, f.skip, "skip-cert-verify", "true", j);
  }

  // -- what the reader makes of it --

  lemma ReadSetIf(c: Fields, b: bool, k: string, j: string)
    ensures j != k ==> CS(SetIf(c, b, k), j) == CS(c, j) && CI(SetIf(c, b, k), j) == CI(c, j)
    ensures j != k ==> CB(SetIf(c, b, k), j) == CB(c, j) && CMap(SetIf(c, b, k), j) == CMap(c, j)
    ensures CB(SetIf(c, b, k), k) == (b || CB(c, k))
  {
  }

  predicate YesIs(b: bool, s: string) { s == if b then "true" else "" }

  lemma YesReads(b: bool, s: string)
    requires YesIs(b, s)
    ensures IsYes(s) == b
  {
    if b {
      GraphIsTrimmed("true");
      assert ToLower("true") == "true";
    } else {
      TrimmedIsFixed("");
      assert ToLower("") == "";
    }
    hide TrimSpace, ToLower;
  }

  /** Fields other than the seeded four are still missing. */
  ghost predicate Bare(c: Fields)
  {
    forall j :: j !in {"name", "type", "server", "port"} ==> j !in c
  }

  lemma BareReads(c: Fields, j: string)
    requires Bare(c) && j !in {"name", "type", "server", "port"}
    ensures j !in c && CS(c, j) == "" && CI(c, j) == 0 && !CB(c, j) && CMap(c, j) == map[]
  {
  }

  function SSBase(c: Fields, f: Facts): Fields
    requires f.SS?
  {
    SetIf(SetIf(With(With(c, "cipher", Str(f.cipher)), "password", Str(f.password)), f.udp, "udp"), f.tfo, "tfo")
  }

  function WithObfs(c: Fields, mode: string, host: string): Fields
  {
    c["plugin" := Str("obfs")]["plugin-opts" := Map(map["mode" := Str(mode), "host" := Str(host)])]
  }

  lemma SSBuilt(c: Fields, f: Facts)
    requires f.SS? && (f.obfs ==> f.mode != "")
    ensures ReadSS(c, Table(OptsOf(f))) == if f.obfs then WithObfs(SSBase(c, f), f.mode, f.host) else SSBase(c, f)
  {
    hide P, Table, OptsOf, IsYes, SetIf, With;
    var m := Table(OptsOf(f));
    LookupSS(f, "encrypt-method");
    LookupSS(f, "password");
    LookupSS(f, "udp-relay");
    LookupSS(f, "tfo");
    LookupSS(f, "obfs");
    LookupSS(f, "obfs-host");
    YesReads(f.udp, P(m, "udp-relay"));
    YesReads(f.tfo, P(m, "tfo"));
  }

  lemma SSFields(c: Fields, f: Facts, j: string)
    requires f.SS? && Bare(c) && j in {"server", "port", "cipher", "password", "udp", "tfo", "plugin"}
    ensures var d := SSBase(c, f);
            && (j == "port" ==> CI(d, j) == CI(c, j))
            && (j in {"server", "cipher", "password", "plugin"} ==>
                  CS(d, j) == if j == "cipher" then f.cipher else if j == "password" then f.password else CS(c, j))
            && (j in {"udp", "tfo"} ==> CB(d, j) == if j == "udp" then f.udp else f.tfo)
  {
    hide CS, CB, CI, CMap, SetIf, With;
    BareReads(c, "cipher");
    BareReads(c, "password");
    BareReads(c, "udp");
    BareReads(c, "tfo");
    hide Bare;
    var c1 := With(c, "cipher", Str(f.cipher));
    var c2 := With(c1, "password", Str(f.password));
    var c3 := SetIf(c2, f.udp, "udp");
    ReadWith(c, "cipher", f.cipher, "password");
    ReadWith(c, "cipher", f.cipher, j);
    ReadWith(c1, "password", f.password, j);
    ReadSetIf(c2, f.udp, "udp", j);
    ReadSetIf(c3, f.tfo, "tfo", j);
  }

  /** The facts of what is read from a printed ss line. */
  lemma SSReads(c: Fields, f: Facts)
    requires f.SS? && Bare(c) && (f.obfs ==> f.mode != "") && (!f.obfs ==> f.mode == "" && f.host == "")
    ensures var d := ReadSS(c, Table(OptsOf(f)));
            FactsOf("ss", d) == Some(f) && CS(d, "server") == CS(c, "server") && CI(d, "port") == CI(c, "port")
  {
    hide CS, CB, CI, CMap, ReadSS, OptsOf, Table, SSBase, WithObfs, Bare;
    SSBuilt(c, f);
    SSFields(c, f, "server");
    SSFields(c, f, "port");
    SSFields(c, f, "cipher");
    SSFields(c, f, "password");
    SSFields(c, f, "udp");
    SSFields(c, f, "tfo");
    SSFields(c, f, "plugin");
    BareReads(c, "plugin");
    var b := SSBase(c, f);
    PluginReads(b, f.mode, f.host, "server");
    PluginReads(b, f.mode, f.host, "port");
    PluginReads(b, f.mode, f.host, "cipher");
    PluginReads(b, f.mode, f.host, "password");
    PluginReads(b, f.mode, f.host, "udp");
    PluginReads(b, f.mode, f.host, "tfo");
  }

  lemma PluginReads(c: Fields, mode: string, host: string, j: string)
    requires j != "plugin" && j != "plugin-opts"
    ensures var d := WithObfs(c, mode, host);
            && CS(d, j) == CS(c, j) && CB(d, j) == CB(c, j) && CI(d, j) == CI(c, j)
            && CS(d, "plugin") == "obfs" && CS(CMap(d, "plugin-opts"), "mode") == mode
            && CS(CMap(d, "plugin-opts"), "host") == host
  {
  }

  lemma SeedIsBare(typ: string, name: string, server: string, port: int)
    ensures var c := Seed(typ, name, server, port); Bare(c) && CS(c, "server") == server && CI(c, "port") == port
  {
  }

  // hysteria2

  lemma Hysteria2Reads(c: Fields, f: Facts)
    requires f.Hysteria2? && Bare(c)
    ensures var d := ReadHysteria2(c, Table(OptsOf(f)));
            FactsOf("hysteria2", d) == Some(f) && CS(d, "server") == CS(c, "server") && CI(d, "port") == CI(c, "port")
  {
    hide CS, CB, CI, CMap, OptsOf, Table, Bare, P, With, SetIf, IsYes;
    var m := Table(OptsOf(f));
    LookupHysteria2(f, "password");
    LookupHysteria2(f, "sni");
    LookupHysteria2(f, "skip-cert-verify");
    YesReads(f.skip, P(m, "skip-cert-verify"));
    Hysteria2Fields(c, f, "server");
    Hysteria2Fields(c, f, "port");
    Hysteria2Fields(c, f, "password");
    Hysteria2Fields(c, f, "sni");
    Hysteria2Fields(c, f, "servername");
    Hysteria2Fields(c, f, "skip-cert-verify");
  }

  lemma Hysteria2Fields(c: Fields, f: Facts, j: string)
    requires f.Hysteria2? && Bare(c) && j in {"server", "port", "password", "sni", "servername", "skip-cert-verify"}
    ensures var d := SetIf(With(With(c, "password", Str(f.password)), "sni", Str(f.sni)), f.skip, "skip-cert-verify");
            && (j == "port" ==> CI(d, j) == CI(c, j))
            && (j == "server" ==> CS(d, j) == CS(c, j))
            && (j in {"password", "sni", "servername"} ==>
                CS(d, j) == if j == "password" then f.password else if j == "sni" then f.sni else "")
            && (j == "skip-cert-verify" ==> CB(d, j) == f.skip)
  {
    hide CS, CB, CI, CMap, SetIf, With;
    BareReads(c, "password");
    BareReads(c, "sni");
    BareReads(c, "servername");
    BareReads(c, "skip-cert-verify");
    hide Bare;
    var c1 := With(c, "password", Str(f.password));
    var c2 := With(c1, "sni", Str(f.sni));
    ReadWith(c, "password", f.password, "sni");
    ReadWith(c, "password", f.password, j);
    ReadWith(c1, "sni", f.sni, j);
    ReadSetIf(c2, f.skip, "skip-cert-verify", j);
  }

  // the WebSocket part

  lemma HostHeaderReads(host: string)
    requires Trimmed(host)
    ensures var cut := Cut("Host:" + host, ':');
            cut.found && EqualFold(TrimSpace(cut.before), "host") && TrimSpace(cut.after) == host
  {
    CutAt("Host", ':', host);
    assert "Host" + [':'] + host == "Host:" + host;
    hide Cut;
    GraphIsTrimmed("Host");
    TrimmedIsFixed(host);
    hide TrimSpace, Trimmed;
    assert ToLower("Host") == "host" && ToLower("host") == "host";
  }

  predicate WsFits(w: Ws) { w.Ws? ==> Trimmed(w.path) && Trimmed(w.host) && ',' !in w.path && ',' !in w.host }

  /** The parameters of a printed WebSocket part. */
  predicate WsGiven(w: Ws, m: Params)
  {
    && P(m, "ws") == (if w.Ws? then "true" else "")
    && P(m, "ws-path") == (if w.Ws? then w.path else "")
    && P(m, "ws-headers") == (if w.Ws? && w.host != "" then "Host:" + w.host else "")
  }

  lemma WsFieldsRead(w: Ws, m: Params)
    requires WsFits(w) && w.Ws? && WsGiven(w, m)
    ensures CS(WsFields(m), "path") == w.path && CS(CMap(WsFields(m), "headers"), "Host") == w.host
  {
    hide P, TrimSpace, EqualFold, Trimmed, Cut;
    if w.host != "" { HostHeaderReads(w.host); }
  }

  lemma WsReads(c: Fields, w: Ws, m: Params, j: string)
    requires WsFits(w) && WsGiven(w, m) && CS(c, "network") == "" && j != "network" && j != "ws-opts"
    ensures var d := ReadWs(c, m);
            WsOf(d) == w && CS(d, j) == CS(c, j) && CB(d, j) == CB(c, j) && CI(d, j) == CI(c, j)
                && CMap(d, j) == CMap(c, j)
  {
    hide P, WsFields, IsYes, CS, CB, CI, CMap, Trimmed;
    YesReads(w.Ws?, P(m, "ws"));
    if w.Ws? { WsFieldsRead(w, m); }
    WsPresent(c, WsFields(m), j);
  }

  lemma WsPresent(c: Fields, o: Fields, j: string)
    requires j != "network" && j != "ws-opts"
    ensures var d := c["network" := Str("ws")]["ws-opts" := Map(o)];
            && CS(d, "network") == "ws" && CMap(d, "ws-opts") == o
            && CS(d, j) == CS(c, j) && CB(d, j) == CB(c, j) && CI(d, j) == CI(c, j) && CMap(d, j) == CMap(c, j)
  {
  }

  // trojan

  function TrojanBase(c: Fields, f: Facts): Fields
    requires f.Trojan?
  {
    var c1 := With(c, "password", Str(f.password))["udp" := Bool(true)]["tls" := Bool(true)];
    SetIf(SetIf(With(c1, "sni", Str(f.sni)), f.skip, "skip-cert-verify"), f.tfo, "tfo")
  }

  lemma TrojanBuilt(c: Fields, f: Facts)
    requires f.Trojan?
    ensures ReadTrojan(c, Table(OptsOf(f))) == ReadWs(TrojanBase(c, f), Table(OptsOf(f)))
            && WsGiven(f.ws, Table(OptsOf(f)))
  {
    hide P, Table, OptsOf, IsYes, SetIf, With, ReadWs;
    var m := Table(OptsOf(f));
    LookupTrojan(f, "password");
    LookupTrojan(f, "sni");
    LookupTrojan(f, "skip-cert-verify");
    LookupTrojan(f, "tfo");
    LookupTrojan(f, "ws");
    LookupTrojan(f, "ws-path");
    LookupTrojan(f, "ws-headers");
    YesReads(f.skip, P(m, "skip-cert-verify"));
    YesReads(f.tfo, P(m, "tfo"));
  }

  lemma TrojanFields(c: Fields, f: Facts, j: string)
    requires f.Trojan? && Bare(c)
    requires j in {"server", "port", "password", "sni", "servername", "skip-cert-verify", "tfo", "udp", "network"}
    ensures var d := TrojanBase(c, f);
            && (j == "port" ==> CI(d, j) == CI(c, j))
            && (j == "server" ==> CS(d, j) == CS(c, j))
            && (j in {"password", "sni", "servername", "network"} ==>
                  CS(d, j) == if j == "password" then f.password else if j == "sni" then f.sni else "")
            && (j in {"skip-cert-verify", "tfo", "udp"} ==>
                CB(d, j) == if j == "udp" then true else if j == "tfo" then f.tfo else f.skip)
  {
    hide CS, CI, CMap, SetIf, With;
    BareReads(c, "password");
    BareReads(c, "sni");
    BareReads(c, "servername");
    BareReads(c, "network");
    BareReads(c, "tfo");
    BareReads(c, "skip-cert-verify");
    hide Bare;
    var c1 := With(c, "password", Str(f.password));
    var c2 := c1["udp" := Bool(true)];
    var c3 := c2["tls" := Bool(true)];
    var c4 := With(c3, "sni", Str(f.sni));
    var c5 := SetIf(c4, f.skip, "skip-cert-verify");
    assert CB(c2, "udp");
    hide CB;
    ReadWith(c, "password", f.password, "sni");
    ReadOther(c1, "udp", Bool(true), "sni");
    ReadOther(c2, "tls", Bool(true), "sni");
    ReadOther(c2, "tls", Bool(true), j);
    ReadWith(c, "password", f.password, j);
    if j != "udp" { ReadOther(c1, "udp", Bool(true), j); }
    ReadWith(c3, "sni", f.sni, j);
    ReadSetIf(c4, f.skip, "skip-cert-verify", j);
    ReadSetIf(c5, f.tfo, "tfo", j);
  }

  /** The facts of what is read from a printed trojan line: udp is always on. */
  lemma TrojanReads(c: Fields, f: Facts)
    requires f.Trojan? && Bare(c) && WsFits(f.ws)
    ensures var d := ReadTrojan(c, Table(OptsOf(f)));
            FactsOf("trojan", d) == Some(f.(udp := true)) && CS(d, "server") == CS(c, "server")
                && CI(d, "port") == CI(c, "port")
  {
    hide CS, CB, CI, CMap, OptsOf, Table, Bare, TrojanBase, ReadTrojan, ReadWs, WsGiven, WsFits, WsOf;
    var b, m := TrojanBase(c, f), Table(OptsOf(f));
    TrojanBuilt(c, f);
    TrojanFields(c, f, "network");
    TrojanField(c, f, "server");
    TrojanField(c, f, "port");
    TrojanField(c, f, "password");
    TrojanField(c, f, "sni");
    TrojanField(c, f, "servername");
    TrojanField(c, f, "skip-cert-verify");
    TrojanField(c, f, "tfo");
    TrojanField(c, f, "udp");
    WsReads(b, f.ws, m, "server");
  }

  lemma TrojanField(c: Fields, f: Facts, j: string)
    requires f.Trojan? && Bare(c) && WsFits(f.ws)
    requires j in {"server", "port", "password", "sni", "servername", "skip-cert-verify", "tfo", "udp"}
    ensures var d := ReadWs(TrojanBase(c, f), Table(OptsOf(f)));
            && (j == "port" ==> CI(d, j) == CI(c, j))
            && (j == "server" ==> CS(d, j) == CS(c, j))
            && (j in {"password", "sni", "servername"} ==>
                CS(d, j) == if j == "password" then f.password else if j == "sni" then f.sni else "")
            && (j in {"skip-cert-verify", "tfo", "udp"} ==>
                CB(d, j) == if j == "udp" then true else if j == "tfo" then f.tfo else f.skip)
  {
    hide CS, CB, CI, CMap, OptsOf, Table, Bare, TrojanBase, ReadTrojan, ReadWs, WsGiven, WsFits, WsOf;
    TrojanBuilt(c, f);
    TrojanFields(c, f, "network");
    TrojanFields(c, f, j);
    WsReads(TrojanBase(c, f), f.ws, Table(OptsOf(f)), j);
  }

  // vmess

  predicate Settled(f: Facts) { f.VMess? && !f.tls ==> f.sni == "" && !f.skip }

  function VMessBase(c: Fields, f: Facts): Fields
    requires f.VMess?
  {
    var c2 := SetIf(With(c, "uuid", Str(f.uuid))["cipher" := Str("auto")], f.tfo, "tfo");
    SetIf(With(SetIf(c2, f.tls, "tls"), "sni", Str(f.sni)), f.skip, "skip-cert-verify")
  }

  lemma VMessBuilt(c: Fields, f: Facts)
    requires f.VMess? && Settled(f)
    ensures ReadVMess(c, Table(OptsOf(f))) == ReadWs(VMessBase(c, f), Table(OptsOf(f)))
            && WsGiven(f.ws, Table(OptsOf(f)))
  {
    hide P, Table, OptsOf, IsYes, ReadWs;
    var m := Table(OptsOf(f));
    LookupVMess(f, "username");
    LookupVMess(f, "uuid");
    LookupVMess(f, "tls");
    LookupVMess(f, "sni");
    LookupVMess(f, "skip-cert-verify");
    LookupVMess(f, "tfo");
    LookupVMess(f, "ws");
    LookupVMess(f, "ws-path");
    LookupVMess(f, "ws-headers");
    YesReads(f.tls, P(m, "tls"));
    YesReads(f.tls && f.skip, P(m, "skip-cert-verify"));
    YesReads(f.tfo, P(m, "tfo"));
  }

  lemma VMessFields(c: Fields, f: Facts, j: string)
    requires f.VMess? && Bare(c)
    requires j in {"server", "port", "uuid", "alterId", "tls", "reality-opts", "sni", "servername", "skip-cert-verify",
            "tfo", "udp", "network"}
    ensures var d := VMessBase(c, f);
            && (j in {"port", "alterId"} ==> CI(d, j) == CI(c, j))
            && (j == "server" ==> CS(d, j) == CS(c, j))
            && (j in {"uuid", "sni", "servername", "network"} ==>
                CS(d, j) == if j == "uuid" then f.uuid else if j == "sni" then f.sni else "")
            && (j in {"skip-cert-verify", "tfo", "udp", "tls"} ==>
                  CB(d, j) == if j == "udp" then false else if j == "tfo" then f.tfo else if j == "tls" then f.tls
                      else f.skip)
            && (j == "reality-opts" ==> CMap(d, j) == map[])
  {
    hide CS, CI, CB, CMap, SetIf, With;
    BareReads(c, "uuid");
    BareReads(c, "sni");
    if j != "server" && j != "port" { BareReads(c, j); }
    hide Bare;
    var c1 := With(c, "uuid", Str(f.uuid));
    var c2 := c1["cipher" := Str("auto")];
    var c3 := SetIf(c2, f.tfo, "tfo");
    var c4 := SetIf(c3, f.tls, "tls");
    var c5 := With(c4, "sni", Str(f.sni));
    SniStillMissing(c, f);
    ReadWith(c, "uuid", f.uuid, j);
    ReadOther(c1, "cipher", Str("auto"), j);
    ReadSetIf(c2, f.tfo, "tfo", j);
    ReadSetIf(c3, f.tls, "tls", j);
    ReadWith(c4, "sni", f.sni, j);
    ReadSetIf(c5, f.skip, "skip-cert-verify", j);
  }

  lemma SniStillMissing(c: Fields, f: Facts)
    requires f.VMess? && "sni" !in c
    ensures "sni" !in SetIf(SetIf(With(c, "uuid", Str(f.uuid))["cipher" := Str("auto")], f.tfo, "tfo"), f.tls, "tls")
  {
  }

  lemma VMessField(c: Fields, f: Facts, j: string)
    requires f.VMess? && Bare(c) && WsFits(f.ws) && Settled(f)
    requires j in {"server", "port", "uuid", "alterId", "tls", "reality-opts", "sni", "servername", "skip-cert-verify",
            "tfo", "udp"}
    ensures var d := ReadVMess(c, Table(OptsOf(f)));
            && (j in {"port", "alterId"} ==> CI(d, j) == CI(c, j))
            && (j == "server" ==> CS(d, j) == CS(c, j))
            && (j in {"uuid", "sni", "servername"} ==>
                CS(d, j) == if j == "uuid" then f.uuid else if j == "sni" then f.sni else "")
            && (j in {"skip-cert-verify", "tfo", "udp", "tls"} ==>
                  CB(d, j) == if j == "udp" then false else if j == "tfo" then f.tfo else if j == "tls" then f.tls
                      else f.skip)
            && (j == "reality-opts" ==> CMap(d, j) == map[])
            && WsOf(d) == f.ws
  {
    hide CS, CB, CI, CMap, OptsOf, Table, Bare, VMessBase, ReadVMess, ReadWs, WsGiven, WsFits, WsOf, Settled;
    VMessBuilt(c, f);
    VMessFields(c, f, "network");
    VMessFields(c, f, j);
    WsReads(VMessBase(c, f), f.ws, Table(OptsOf(f)), j);
  }

  /** The facts of what is read from a printed vmess line: udp is off, and no alterId means AEAD. */
  lemma VMessReads(c: Fields, f: Facts)
    requires f.VMess? && Bare(c) && WsFits(f.ws) && Settled(f)
    ensures var d := ReadVMess(c, Table(OptsOf(f)));
            FactsOf("vmess", d) == Some(f.(aead := true, udp := false)) && CS(d, "server") == CS(c, "server")
                && CI(d, "port") == CI(c, "port")
  {
    BareReads(c, "alterId");
    hide CS, CB, CI, CMap, OptsOf, Table, Bare, ReadVMess, WsFits, WsOf;
    VMessField(c, f, "server");
    VMessField(c, f, "port");
    VMessField(c, f, "uuid");
    VMessField(c, f, "alterId");
    VMessField(c, f, "tls");
    VMessField(c, f, "reality-opts");
    VMessField(c, f, "sni");
    VMessField(c, f, "servername");
    VMessField(c, f, "skip-cert-verify");
    VMessField(c, f, "tfo");
    VMessField(c, f, "udp");
  }

  // -- a line --

  /** What the reader makes of printed facts. */
  function Reread(f: Facts): Facts
  {
    match f
    case SS(cipher, password, udp, obfs, mode, host, tfo) =>
      if obfs && mode == "" then SS(cipher, password, udp, false, "", "", tfo) else f
    case VMess(_, _, _, _, _, _, _, _) => f.(aead := true, udp := false)
    case Trojan(_, _, _, _, _, _) => f.(udp := true)
    case Hysteria2(_, _, _) => f
  }

  predicate TextFits(s: string) { Trimmed(s) && ',' !in s && '\n' !in s }

  predicate FactsFit(f: Facts)
  {
    match f
    case SS(cipher, password, _, _, mode, host, _) => TextFits(cipher) && TextFits(password) && TextFits(mode)
        && TextFits(host)
    case VMess(uuid, _, _, sni, _, ws, _, _) => TextFits(uuid) && TextFits(sni)
        && (ws.Ws? ==> TextFits(ws.path) && TextFits(ws.host))
    case Trojan(password, sni, _, ws, _, _) => TextFits(password) && TextFits(sni)
        && (ws.Ws? ==> TextFits(ws.path) && TextFits(ws.host))
    case Hysteria2(password, sni, _) => TextFits(password) && TextFits(sni)
  }

  /** FactsOf leaves out what the line does not print. */
  predicate Canonical(f: Facts)
  {
    match f
    case SS(_, _, _, obfs, mode, host, _) => !obfs ==> mode == "" && host == ""
    case VMess(_, _, tls, sni, skip, _, _, _) => !tls ==> sni == "" && !skip
    case _ => true
  }

  lemma FactsAreCanonical(typ: string, c: Fields)
    ensures FactsOf(typ, c).Some? ==>
      Canonical(FactsOf(typ, c).value) && IsKnown(typ) && TypeOf(FactsOf(typ, c).value) == typ
  {
    hide CS, CB, CI, CMap, HasTls, GetSNI, WsOf;
  }

  function TypeOf(f: Facts): string
  {
    match f
    case SS(_, _, _, _, _, _, _) => "ss"
    case VMess(_, _, _, _, _, _, _, _) => "vmess"
    case Trojan(_, _, _, _, _, _) => "trojan"
    case Hysteria2(_, _, _) => "hysteria2"
  }

  /** An empty obfs mode prints an option that reads as no option. */
  lemma EmptyModeReads(c: Fields, f: Facts)
    requires f.SS? && f.obfs && f.mode == ""
    ensures ReadSS(c, Table(OptsOf(f))) == ReadSS(c, Table(OptsOf(Reread(f))))
  {
    var g := Reread(f);
    hide Table, OptsOf, P, IsYes;
    LookupSS(f, "encrypt-method");
    LookupSS(f, "password");
    LookupSS(f, "udp-relay");
    LookupSS(f, "tfo");
    LookupSS(f, "obfs");
    LookupSS(g, "encrypt-method");
    LookupSS(g, "password");
    LookupSS(g, "udp-relay");
    LookupSS(g, "tfo");
    LookupSS(g, "obfs");
  }

  lemma FieldsReadBack(name: string, server: string, port: int, f: Facts)
    requires Canonical(f) && FactsFit(f)
    ensures var d := FieldsRead(TypeOf(f), Seed(TypeOf(f), name, server, port), Table(OptsOf(f)));
            FactsOf(TypeOf(f), d) == Some(Reread(f)) && CS(d, "server") == server && CI(d, "port") == port
  {
    var c := Seed(TypeOf(f), name, server, port);
    SeedIsBare(TypeOf(f), name, server, port);
    hide Bare, CS, CI, FactsOf, OptsOf, Table, ReadSS, ReadVMess, ReadTrojan, ReadHysteria2, Seed, Trimmed;
    match f {
      case SS(_, _, _, obfs, mode, _, _) =>
        if obfs && mode == "" { EmptyModeReads(c, f); }
        SSReads(c, Reread(f));
      case VMess(_, _, _, _, _, _, _, _) => VMessReads(c, f);
      case Trojan(_, _, _, _, _, _) => TrojanReads(c, f);
      case Hysteria2(_, _, _) => Hysteria2Reads(c, f);
    }
  }

  predicate OptOk(o: Opt) { OptFits(o) && '\n' !in OptText(o) }

  predicate AllOk(os: seq<Opt>) { forall i :: 0 <= i < |os| ==> OptOk(os[i]) }

  lemma OkWhen(os: seq<Opt>, b: bool, k: string, v: string)
    requires AllOk(os) && (b ==> IsOptKey(k) && TextFits(v))
    ensures AllOk(os + When(b, k, v))
  {
    hide OptOk, TextFits, IsOptKey;
    if b { Fits(k, v); }
  }

  lemma TrueFits()
    ensures TextFits("true")
  {
    GraphIsTrimmed("true");
  }

  lemma OkWs(os: seq<Opt>, w: Ws)
    requires AllOk(os) && (w.Ws? ==> TextFits(w.path) && TextFits(w.host))
    ensures AllOk(WsOpts(w, os))
  {
    hide TextFits, When, AllOk;
    TrueFits();
    if w.Ws? {
      HostFits(w.host);
      OkWhen(os, true, "ws", "true");
      OkWhen(os + When(true, "ws", "true"), w.path != "", "ws-path", w.path);
      OkWhen(os + When(true, "ws", "true") + When(w.path != "", "ws-path", w.path), w.host != "", "ws-headers", "Host:"
          + w.host);
    }
  }

  lemma OptsFit(f: Facts)
    requires FactsFit(f)
    ensures AllOk(OptsOf(f))
  {
    hide TextFits, When, AllOk, WsOpts;
    TrueFits();
    assert AllOk([]) by { NoneOk(); }
    match f {
      case SS(cipher, password, udp, obfs, mode, host, tfo) =>
        var o1 := [] + When(true, "encrypt-method", cipher);
        var o2 := o1 + When(true, "password", password);
        var o3 := o2 + When(udp, "udp-relay", "true");
        var o4 := o3 + When(obfs, "obfs", mode);
        OkWhen([], true, "encrypt-method", cipher);
        OkWhen(o1, true, "password", password);
        OkWhen(o2, udp, "udp-relay", "true");
        OkWhen(o3, obfs, "obfs", mode);
        OkWhen(o4, obfs && host != "", "obfs-host", host);
        OkWhen(o4 + When(obfs && host != "", "obfs-host", host), tfo, "tfo", "true");
      case VMess(uuid, aead, tls, sni, skip, ws, udp, tfo) =>
        var o1 := [] + When(true, "username", uuid);
        var o2 := o1 + When(aead, "vmess-aead", "true");
        var o3 := o2 + When(tls, "tls", "true");
        var o4 := o3 + When(tls && sni != "", "sni", sni);
        var o5 := o4 + When(tls && skip, "skip-cert-verify", "true");
        OkWhen([], true, "username", uuid);
        OkWhen(o1, aead, "vmess-aead", "true");
        OkWhen(o2, tls, "tls", "true");
        OkWhen(o3, tls && sni != "", "sni", sni);
        OkWhen(o4, tls && skip, "skip-cert-verify", "true");
        OkWs(o5, ws);
        OkTail(WsOpts(ws, o5), udp, tfo);
      case Trojan(password, sni, skip, ws, udp, tfo) =>
        var o1 := [] + When(true, "password", password);
        var o2 := o1 + When(sni != "", "sni", sni);
        OkWhen([], true, "password", password);
        OkWhen(o1, sni != "", "sni", sni);
        OkWhen(o2, skip, "skip-cert-verify", "true");
        OkWs(o2 + When(skip, "skip-cert-verify", "true"), ws);
        OkTail(WsOpts(ws, o2 + When(skip, "skip-cert-verify", "true")), udp, tfo);
      case Hysteria2(password, sni, skip) =>
        var o1 := [] + When(true, "password", password);
        OkWhen([], true, "password", password);
        OkWhen(o1, sni != "", "sni", sni);
        OkWhen(o1 + When(sni != "", "sni", sni), skip, "skip-cert-verify", "true");
    }
  }

  lemma NoneOk()
    ensures AllOk([])
  {
  }

  lemma OkTail(os: seq<Opt>, udp: bool, tfo: bool)
    requires AllOk(os)
    ensures AllOk(os + When(udp, "udp-relay", "true") + When(tfo, "tfo", "true"))
  {
    hide TextFits, When, AllOk;
    TrueFits();
    OkWhen(os, udp, "udp-relay", "true");
    OkWhen(os + When(udp, "udp-relay", "true"), tfo, "tfo", "true");
  }

  predicate IsOptKey(k: string)
  {
    k in {"encrypt-method", "password", "udp-relay", "obfs", "obfs-host", "tfo", "username", "vmess-aead", "tls", "sni",
          "skip-cert-verify", "ws", "ws-path", "ws-headers"}
  }

  lemma Fits(key: string, value: string)
    requires IsOptKey(key) && TextFits(value)
    ensures OptOk(Opt(key, value))
  {
    hide Trimmed;
    assert forall i :: 0 <= i < |key| ==> IsGraph(key[i]) && key[i] != '=' && key[i] != ',' && !('A' <= key[i] <= 'Z');
  }

  lemma HostFits(host: string)
    requires TextFits(host)
    ensures TextFits("Host:" + host)
  {
    var t := "Host:" + host;
    assert forall k :: 5 <= k < |t| ==> t[k] == host[k - 5];
    assert t[4] == ':';
  }

  /** Names that neither hold '=' nor read as comments. */
  predicate NameFits(name: string)
  {
    && name != "" && Trimmed(name) && '=' !in name && '\n' !in name
    && !("#" <= name) && !(";" <= name) && !("//" <= name)
  }

  predicate ServerFits(server: string) { server != "" && TextFits(server) }

  predicate NodeFits(n: Node)
  {
    && NameFits(n.name) && ServerFits(CS(n.clash, "server")) && IsPort(CI(n.clash, "port"))
    && FactsOf(n.typ, n.clash).Some? && FactsFit(FactsOf(n.typ, n.clash).value)
  }

  function Parts(f: Facts, server: string, port: int): seq<string>
  {
    [TypeOf(f), server, Itoa(port)] + OptTexts(OptsOf(f))
  }

  lemma PartsFit(f: Facts, server: string, port: int)
    requires FactsFit(f) && ServerFits(server)
    ensures forall i :: 0 <= i < |Parts(f, server, port)| ==>
            ',' !in Parts(f, server, port)[i] && '\n' !in Parts(f, server, port)[i]
  {
    hide OptsOf, OptFits, OptText, Itoa, TokenOpt, TypeOf, Trimmed;
    OptsFit(f);
    ItoaChars(port);
    var os, parts := OptsOf(f), Parts(f, server, port);
    TypeFits(f);
    forall i | 0 <= i < |os|
      ensures ',' !in OptText(os[i]) && '\n' !in OptText(os[i])
    {
      assert OptOk(os[i]);
      ReadOpt(os[i]);
    }
    forall i | 0 <= i < |parts|
      ensures ',' !in parts[i] && '\n' !in parts[i]
    {
      assert i >= 3 ==> parts[i] == OptText(os[i - 3]);
    }
  }

  lemma TypeFits(f: Facts)
    ensures ',' !in TypeOf(f) && '\n' !in TypeOf(f) && TypeOf(f) != "" && IsGraph(TypeOf(f)[0])
  {
  }

  lemma TypeReads(f: Facts)
    ensures ToLower(TrimSpace(" " + TypeOf(f))) == TypeOf(f)
  {
    hide TrimSpace, Trimmed, ToLower;
    var t := TypeOf(f);
    TypeIsLower(t);
    TrimSpaced(t);
  }

  lemma TypeIsLower(t: string)
    requires IsKnown(t)
    ensures Trimmed(t) && ToLower(t) == t
  {
    GraphIsTrimmed(t);
    hide Trimmed;
    assert forall i :: 0 <= i < |t| ==> LowerChar(t[i]) == t[i];
  }

  lemma PortReads(port: int)
    requires IsPort(port)
    ensures AtoiPort(" " + Itoa(port)) == port
  {
    ItoaChars(port);
    GraphIsTrimmed(Itoa(port));
    TrimSpaced(Itoa(port));
    AtoiPortOf(port);
    hide TrimSpace, Itoa, Atoi;
  }

  /** A printed line reads as a node that has the line's name, type, address, and facts as the reader takes them. */
  lemma LineReads(name: string, server: string, port: int, f: Facts, other: OtherReader)
    requires NameFits(name) && ServerFits(server) && IsPort(port) && FactsFit(f) && Canonical(f)
    ensures var p := LineRead(PrintedLine(name, TypeOf(f), server, port, f), other);
            && p.Some? && p.value.name == name && p.value.typ == TypeOf(f) && p.value.server == server
            && p.value.port == port
            && FactsOf(TypeOf(f), p.value.clash) == Some(Reread(f))
            && CS(p.value.clash, "server") == server && CI(p.value.clash, "port") == port
  {
    hide Trimmed, TrimSpace, Split, Join, OptsOf, Table, FactsOf, FieldsRead, CS, CI, Itoa, AtoiPort, ToLower, TypeOf,
        Reread, Seed;
    var parts := Parts(f, server, port);
    PartsFit(f, server, port);
    OptsFit(f);
    LineTokens(name, parts);
    assert PrintedLine(name, TypeOf(f), server, port, f) == name + " = " + Join(parts, ", ");
    TypeReads(f);
    TrimSpaced(name);
    TrimSpaced(server);
    PortReads(port);
    SpacedParts(f, server, port);
    ParamsAreTable(OptsOf(f));
    FieldsReadBack(name, server, port, f);
    TypeIsKnown(f);
    assert forall i :: 0 <= i < |OptsOf(f)| ==> OptOk(OptsOf(f)[i]);
    hide OptFits, OptText, FactsFit, Canonical, Parts, Spaced;
  }

  lemma TypeIsKnown(f: Facts)
    ensures IsKnown(TypeOf(f))
  {
  }

  lemma LineTokens(name: string, parts: seq<string>)
    requires '=' !in name && parts != [] && forall i :: 0 <= i < |parts| ==> ',' !in parts[i]
    ensures var cut := Cut(name + " = " + Join(parts, ", "), '=');
            cut.found && cut.before == name + " " && Split(cut.after, ',') == Spaced(parts)
  {
    hide Join, Split, Spaced, Cut;
    SplitSpaced(parts);
    CutAt(name + " ", '=', " " + Join(parts, ", "));
    EqualsSign(name, Join(parts, ", "));
  }

  lemma EqualsSign(name: string, rest: string)
    ensures name + " " + ['='] + (" " + rest) == name + " = " + rest
  {
  }

  lemma SpacedParts(f: Facts, server: string, port: int)
    ensures var t := Spaced(Parts(f, server, port));
            && |t| >= 3 && t[0] == " " + TypeOf(f) && t[1] == " " + server && t[2] == " " + Itoa(port)
            && t[3..] == Spaced(OptTexts(OptsOf(f)))
  {
    hide OptsOf, TypeOf, Itoa, OptText;
  }

  /** The line a node of the four protocols prints. */
  function OwnLine(n: Node): string
  {
    var f := FactsOf(n.typ, n.clash);
    if f.Some? then PrintedLine(n.name, n.typ, CS(n.clash, "server"), CI(n.clash, "port"), f.value) else ""
  }

  /** The node read from a node's own line. */
  function Again(n: Node, other: OtherReader): Option<Node> { LineRead(OwnLine(n), other) }

  /** Printed, read and printed again, a line says what the reader took. */
  lemma PrintedAgain(n: Node, other: OtherReader, lines: OtherLines)
    requires NodeFits(n)
    ensures Again(n, other).Some?
    ensures LineOf(Again(n, other).value, lines)
         == Some(PrintedLine(n.name, n.typ, CS(n.clash, "server"), CI(n.clash, "port"),
             Reread(FactsOf(n.typ, n.clash).value)))
  {
    var f := FactsOf(n.typ, n.clash).value;
    FactsAreCanonical(n.typ, n.clash);
    LineReads(n.name, CS(n.clash, "server"), CI(n.clash, "port"), f, other);
    hide FactsOf, LineRead, PrintedLine, CS, CI, Reread, NameFits, ServerFits, FactsFit, Canonical, TypeOf;
  }

  predicate IsStable(n: Node) { FactsOf(n.typ, n.clash).Some? && Stable(FactsOf(n.typ, n.clash).value) }

  /** The facts a line can keep. */
  predicate Stable(f: Facts)
  {
    match f
    case SS(_, _, _, obfs, mode, _, _) => obfs ==> mode != ""
    case VMess(_, aead, _, _, _, _, udp, _) => aead && !udp
    case Trojan(_, _, _, _, udp, _) => udp
    case Hysteria2(_, _, _) => true
  }

  lemma StableIsReread(f: Facts)
    ensures Reread(f) == f <==> Stable(f)
    ensures FactsFit(f) ==> FactsFit(Reread(f))
    ensures TypeOf(Reread(f)) == TypeOf(f)
  {
    assert TextFits("") by { TrimmedIsFixed(""); }
    hide TextFits;
  }

  /** Equal lines have equal options. */
  lemma SameLineSameOptions(name: string, server: string, port: int, f: Facts, g: Facts)
    requires '=' !in name && ServerFits(server) && FactsFit(f) && FactsFit(g) && TypeOf(f) == TypeOf(g)
    requires PrintedLine(name, TypeOf(f), server, port, f) == PrintedLine(name, TypeOf(g), server, port, g)
    ensures Table(OptsOf(f)) == Table(OptsOf(g)) && |OptsOf(f)| == |OptsOf(g)|
  {
    hide OptsOf, Table, TypeOf, Join, Split, OptText, ServerFits;
    PartsFit(f, server, port);
    PartsFit(g, server, port);
    LineTokens(name, Parts(f, server, port));
    LineTokens(name, Parts(g, server, port));
    SpacedParts(f, server, port);
    SpacedParts(g, server, port);
    OptsFit(f);
    OptsFit(g);
    OkIsFit(OptsOf(f));
    OkIsFit(OptsOf(g));
    ParamsAreTable(OptsOf(f));
    ParamsAreTable(OptsOf(g));
    hide Spaced, Parts, FactsFit;
  }

  lemma OkIsFit(os: seq<Opt>)
    requires AllOk(os)
    ensures forall i :: 0 <= i < |os| ==> OptFits(os[i])
  {
    hide OptFits, OptText;
    assert forall i :: 0 <= i < |os| ==> OptOk(os[i]);
  }

  lemma UnstableDiffers(f: Facts)
    requires !Stable(f)
    ensures Table(OptsOf(f)) != Table(OptsOf(Reread(f))) || |OptsOf(f)| != |OptsOf(Reread(f))|
  {
    hide P, Table, OptsOf, WsParam;
    var g := Reread(f);
    match f {
      case SS(_, _, _, _, _, _, _) =>
        SSCount(f);
        SSCount(g);
      case VMess(_, _, _, _, _, _, _, _) =>
        VMessSwitches(f);
        VMessSwitches(g);
      case Trojan(_, _, _, _, _, _) =>
        TrojanSwitch(f);
        TrojanSwitch(g);
      case Hysteria2(_, _, _) =>
    }
  }

  lemma VMessSwitches(f: Facts)
    requires f.VMess?
    ensures P(Table(OptsOf(f)), "vmess-aead") == (if f.aead then "true" else "")
    ensures P(Table(OptsOf(f)), "udp-relay") == (if f.udp then "true" else "")
  {
    hide P, Table, OptsOf;
    LookupVMess(f, "vmess-aead");
    LookupVMess(f, "udp-relay");
  }

  lemma TrojanSwitch(f: Facts)
    requires f.Trojan?
    ensures P(Table(OptsOf(f)), "udp-relay") == (if f.udp then "true" else "")
  {
    hide P, Table, OptsOf;
    LookupTrojan(f, "udp-relay");
  }

  lemma SSCount(f: Facts)
    requires f.SS?
    ensures |OptsOf(f)| == 2 + (if f.udp then 1 else 0) + (if f.obfs then 1 else 0)
            + (if f.obfs && f.host != "" then 1 else 0) + if f.tfo then 1 else 0
  {
  }

  /**
    A node's line is reproduced exactly when the node is one the reader takes whole: an obfs mode with
    the obfs plugin, trojan with udp, vmess without udp and with alterId 0.
   */
  lemma LineReproducedIff(n: Node, other: OtherReader, lines: OtherLines)
    requires NodeFits(n)
    ensures Again(n, other).Some?
    ensures LineOf(Again(n, other).value, lines) == LineOf(n, lines) <==> IsStable(n)
  {
    PrintedAgain(n, other, lines);
    var f := FactsOf(n.typ, n.clash).value;
    FactsAreCanonical(n.typ, n.clash);
    StableIsReread(f);
    var server, port := CS(n.clash, "server"), CI(n.clash, "port");
    hide FactsOf, LineRead, CS, CI, Reread, FactsFit, TypeOf, Stable, Trimmed, OptsOf, Table, Again;
    if !Stable(f) {
      UnstableDiffers(f);
      if PrintedLine(n.name, n.typ, server, port, f) == PrintedLine(n.name, n.typ, server, port, Reread(f)) {
        SameLineSameOptions(n.name, server, port, f, Reread(f));
      }
    }
    hide PrintedLine;
  }
}
