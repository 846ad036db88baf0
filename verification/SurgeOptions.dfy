/**
  Surge lines in the open: under which key a printed line says what of a node, and what the reader makes of
  each key of any line (internal/generator/surge.go, internal/parser/surge.go).
 */
module SurgeOptions {
  import opened Wrappers
  import opened Text
  import opened Decimal
  import opened Values
  import opened Accessors
  import opened LinkText
  import opened SurgeLines

  // ---------- what is printed ----------

  function Yes(b: bool): string { if b then "true" else "" }

  /** The server name for TLS: servername, or else sni. */
  function ServerName(c: Fields): string { if CS(c, "servername") != "" then CS(c, "servername") else CS(c, "sni") }

  /** What the WebSocket options say, "" for those that are not there. */
  function WsOption(c: Fields, key: string): string
  {
    var o := CMap(c, "ws-opts");
    var host := CS(CMap(o, "headers"), "Host");
    if CS(c, "network") != "ws" then ""
    else match key
      case "ws" => "true"
      case "ws-path" => CS(o, "path")
      case "ws-headers" => if host != "" then "Host:" + host else ""
      case _ => ""
  }

  /** What the line of a node says under a key, "" for keys that are not there: node key by option key. */
  function Option(typ: string, c: Fields, key: string): string
  {
    var o := CMap(c, "plugin-opts");
    var tls := CB(c, "tls") || CMap(c, "reality-opts") != map[];
    match typ
    case "ss" => (
      match key
      case "encrypt-method" => CS(c, "cipher")
      case "password" => CS(c, "password")
      case "udp-relay" => Yes(CB(c, "udp"))
      case "obfs" => if CS(c, "plugin") == "obfs" then CS(o, "mode") else ""
      case "obfs-host" => if CS(c, "plugin") == "obfs" then CS(o, "host") else ""
      case "tfo" => Yes(CB(c, "tfo"))
      case _ => "")
    case "vmess" => (
      match key
      case "username" => CS(c, "uuid")
      case "vmess-aead" => Yes(CI(c, "alterId") == 0)
      case "tls" => Yes(tls)
      case "sni" => if tls then ServerName(c) else ""
      case "skip-cert-verify" => Yes(tls && CB(c, "skip-cert-verify"))
      case "udp-relay" => Yes(CB(c, "udp"))
      case "tfo" => Yes(CB(c, "tfo"))
      case _ => WsOption(c, key))
    case "trojan" => (
      match key
      case "password" => CS(c, "password")
      case "sni" => ServerName(c)
      case "skip-cert-verify" => Yes(CB(c, "skip-cert-verify"))
      case "udp-relay" => Yes(CB(c, "udp"))
      case "tfo" => Yes(CB(c, "tfo"))
      case _ => WsOption(c, key))
    case "hysteria2" => (
      match key
      case "password" => CS(c, "password")
      case "sni" => ServerName(c)
      case "skip-cert-verify" => Yes(CB(c, "skip-cert-verify"))
      case _ => "")
    case _ => ""
  }

  lemma NoEntries(m: Fields)
    ensures |m| > 0 <==> m != map[]
  {
    if |m| == 0 { assert m.Keys == {}; }
  }

  lemma SSOptions(c: Fields, key: string)
    ensures FactsOf("ss", c).Some? && P(Table(OptsOf(FactsOf("ss", c).value)), key) == Option("ss", c, key)
  {
    hide P, Table, OptsOf, CS, CB, CI, CMap;
    LookupSS(FactsOf("ss", c).value, key);
  }

  lemma VMessOptions(c: Fields, key: string)
    ensures FactsOf("vmess", c).Some? && P(Table(OptsOf(FactsOf("vmess", c).value)), key) == Option("vmess", c, key)
  {
    NoEntries(CMap(c, "reality-opts"));
    hide P, Table, OptsOf, CS, CB, CI, CMap;
    LookupVMess(FactsOf("vmess", c).value, key);
  }

  lemma TrojanOptions(c: Fields, key: string)
    ensures FactsOf("trojan", c).Some? && P(Table(OptsOf(FactsOf("trojan", c).value)), key) == Option("trojan", c, key)
  {
    hide P, Table, OptsOf, CS, CB, CI, CMap;
    LookupTrojan(FactsOf("trojan", c).value, key);
  }

  lemma Hysteria2Options(c: Fields, key: string)
    ensures var f := FactsOf("hysteria2", c);
            f.Some? && P(Table(OptsOf(f.value)), key) == Option("hysteria2", c, key)
  {
    hide P, Table, OptsOf, CS, CB, CI, CMap;
    LookupHysteria2(FactsOf("hysteria2", c).value, key);
  }

  /** The options of a printed line are those of its node's own fields, and there are no others. */
  lemma OptionsAre(typ: string, c: Fields, key: string)
    requires IsKnown(typ)
    ensures FactsOf(typ, c).Some? && P(Table(OptsOf(FactsOf(typ, c).value)), key) == Option(typ, c, key)
  {
    hide P, Table, OptsOf, FactsOf, Option;
    SSOptions(c, key);
    VMessOptions(c, key);
    TrojanOptions(c, key);
    Hysteria2Options(c, key);
  }

  /** The options as they stand in the line. */
  function Tail(os: seq<Opt>): string
  {
    if os == [] then "" else
    var n := |os| - 1;
    Tail(os[..n]) + (", " + os[n].key + "=" + os[n].value)
  }

  lemma {:induction false} JoinTail(head: seq<string>, os: seq<Opt>)
    requires head != []
    ensures Join(head + OptTexts(os), ", ") == Join(head, ", ") + Tail(os)
  {
    if os == [] {
      assert head + OptTexts(os) == head;
    } else {
      var n := |os| - 1;
      JoinTail(head, os[..n]);
      assert head + OptTexts(os) == (head + OptTexts(os[..n])) + [OptText(os[n])];
      JoinSnoc(head + OptTexts(os[..n]), OptText(os[n]), ", ");
      var a, b, d := Join(head, ", "), Tail(os[..n]), os[n].key + "=" + os[n].value;
      assert a + b + ", " + d == a + (b + (", " + d));
      assert ", " + os[n].key + "=" + os[n].value == ", " + d;
    }
  }

  /** A line is the name, the type, the address and the options, in this order. */
  lemma LineText(n: Node, other: OtherLines)
    requires FactsOf(n.typ, n.clash).Some?
    ensures LineOf(n, other) ==
            Some(n.name + " = " + (n.typ + ", " + CS(n.clash, "server") + ", " + Itoa(CI(n.clash, "port"))
                 + Tail(OptsOf(FactsOf(n.typ, n.clash).value))))
  {
    var server, port, os := CS(n.clash, "server"), Itoa(CI(n.clash, "port")), OptsOf(FactsOf(n.typ, n.clash).value);
    JoinTail([n.typ, server, port], os);
    JoinThree(n.typ, server, port);
    hide FactsOf, OptsOf, OptTexts, Join, CS, CI, Itoa, Tail;
  }

  lemma JoinThree(a: string, b: string, d: string)
    ensures Join([a, b, d], ", ") == a + ", " + b + ", " + d
  {
    assert [a, b, d][1..] == [b, d] && [b, d][1..] == [d];
    assert Join([b, d], ", ") == b + ", " + d;
    assert a + ", " + (b + ", " + d) == a + ", " + b + ", " + d;
  }

  // ---------- what is read ----------

  function At(m: Fields, k: string): Option<Value> { if k in m then Some(m[k]) else None }

  /** Only a text that is not empty is set. */
  function TextOver(s: string, below: Option<Value>): Option<Value> { if s != "" then Some(Str(s)) else below }

  /** Only a switch that is on is set: 1, true, yes or on, in any case. */
  function SwitchOver(s: string, below: Option<Value>): Option<Value>
  {
    if ToLower(TrimSpace(s)) in {"1", "true", "yes", "on"} then Some(Bool(true)) else below
  }

  predicate On(s: string) { ToLower(TrimSpace(s)) in {"1", "true", "yes", "on"} }

  /** The ws-opts that are set when WebSocket is on. */
  function WsRead(m: Params): Fields
  {
    var cut := Cut(P(m, "ws-headers"), ':');
    (if P(m, "ws-path") != "" then map["path" := Str(P(m, "ws-path"))] else map[])
    + (if cut.found && EqualFold(TrimSpace(cut.before), "host")
       then map["headers" := Map(map["Host" := Str(TrimSpace(cut.after))])] else map[])
  }

  function WsOver(m: Params, k: string, below: Option<Value>): Option<Value>
  {
    if !On(P(m, "ws")) then below
    else match k
      case "network" => Some(Str("ws"))
      case "ws-opts" => Some(Map(WsRead(m)))
      case _ => below
  }

  /** The field that is set under key k for a line with parameters m; below is what stood there before. */
  function FieldRead(typ: string, m: Params, k: string, below: Option<Value>): Option<Value>
  {
    var tls := On(P(m, "tls")) || P(m, "sni") != "";
    var user := if P(m, "username") != "" then P(m, "username") else P(m, "uuid");
    match typ
    case "ss" => (
      match k
      case "cipher" => TextOver(P(m, "encrypt-method"), below)
      case "password" => TextOver(P(m, "password"), below)
      case "udp" => SwitchOver(P(m, "udp-relay"), below)
      case "tfo" => SwitchOver(P(m, "tfo"), below)
      case "plugin" => if P(m, "obfs") != "" then Some(Str("obfs")) else below
      case "plugin-opts" =>
        if P(m, "obfs") != "" then Some(Map(map["mode" := Str(P(m, "obfs")), "host" := Str(P(m, "obfs-host"))]))
        else below
      case _ => below)
    case "vmess" => (
      match k
      case "uuid" => TextOver(user, below)
      case "cipher" => Some(Str("auto"))
      case "tfo" => SwitchOver(P(m, "tfo"), below)
      case "tls" => if tls then Some(Bool(true)) else below
      case "sni" => if tls then TextOver(P(m, "sni"), below) else below
      case "skip-cert-verify" => if tls then SwitchOver(P(m, "skip-cert-verify"), below) else below
      case _ => WsOver(m, k, below))
    case "trojan" => (
      match k
      case "password" => TextOver(P(m, "password"), below)
      case "udp" => Some(Bool(true))
      case "tls" => Some(Bool(true))
      case "sni" => TextOver(P(m, "sni"), below)
      case "skip-cert-verify" => SwitchOver(P(m, "skip-cert-verify"), below)
      case "tfo" => SwitchOver(P(m, "tfo"), below)
      case _ => WsOver(m, k, below))
    case "hysteria2" => (
      match k
      case "password" => TextOver(P(m, "password"), below)
      case "sni" => TextOver(P(m, "sni"), below)
      case "skip-cert-verify" => SwitchOver(P(m, "skip-cert-verify"), below)
      case _ => below)
    case _ => below
  }

  lemma WsFieldsAre(m: Params)
    ensures WsFields(m) == WsRead(m)
  {
    hide TrimSpace, EqualFold, P;
    if P(m, "ws-headers") == "" { assert !Cut("", ':').found; }
  }

  lemma WsAt(c: Fields, m: Params, k: string)
    ensures At(ReadWs(c, m), k) == WsOver(m, k, At(c, k))
  {
    WsFieldsAre(m);
    hide P, TrimSpace, ToLower, WsFields, WsRead;
  }

  lemma TextAt(c: Fields, key: string, s: string, k: string)
    ensures At(With(c, key, Str(s)), k) == if k == key then TextOver(s, At(c, k)) else At(c, k)
  {
  }

  lemma SwitchAt(c: Fields, s: string, key: string, k: string)
    ensures At(SetIf(c, IsYes(s), key), k) == if k == key then SwitchOver(s, At(c, k)) else At(c, k)
  {
    hide TrimSpace, ToLower;
  }

  lemma SSAt(c: Fields, m: Params, k: string)
    ensures At(ReadSS(c, m), k) == FieldRead("ss", m, k, At(c, k))
  {
    hide P, TrimSpace, ToLower, With, SetIf, IsYes;
    var c1 := With(c, "cipher", Str(P(m, "encrypt-method")));
    var c2 := With(c1, "password", Str(P(m, "password")));
    var c3 := SetIf(c2, IsYes(P(m, "udp-relay")), "udp");
    TextAt(c, "cipher", P(m, "encrypt-method"), k);
    TextAt(c1, "password", P(m, "password"), k);
    SwitchAt(c2, P(m, "udp-relay"), "udp", k);
    SwitchAt(c3, P(m, "tfo"), "tfo", k);
    hide TextOver, SwitchOver;
  }

  lemma VMessAt(c: Fields, m: Params, k: string)
    ensures At(ReadVMess(c, m), k) == FieldRead("vmess", m, k, At(c, k))
  {
    hide P, TrimSpace, ToLower, With, SetIf, ReadWs;
    var user := FirstNonEmpty(P(m, "username"), P(m, "uuid"));
    var c1 := With(c, "uuid", Str(user));
    var c2 := SetIf(c1["cipher" := Str("auto")], IsYes(P(m, "tfo")), "tfo");
    var c3 := c2["tls" := Bool(true)];
    var c4 := With(c3, "sni", Str(P(m, "sni")));
    var tls := IsYes(P(m, "tls")) || P(m, "sni") != "";
    TextAt(c, "uuid", user, k);
    SwitchAt(c1["cipher" := Str("auto")], P(m, "tfo"), "tfo", k);
    TextAt(c3, "sni", P(m, "sni"), k);
    SwitchAt(c4, P(m, "skip-cert-verify"), "skip-cert-verify", k);
    WsAt(if tls then SetIf(c4, IsYes(P(m, "skip-cert-verify")), "skip-cert-verify") else c2, m, k);
    hide TextOver, SwitchOver, WsRead;
  }

  lemma TrojanAt(c: Fields, m: Params, k: string)
    ensures At(ReadTrojan(c, m), k) == FieldRead("trojan", m, k, At(c, k))
  {
    hide P, TrimSpace, ToLower, With, SetIf, IsYes, ReadWs;
    var c1 := With(c, "password", Str(P(m, "password")));
    var c2 := c1["udp" := Bool(true)]["tls" := Bool(true)];
    var c3 := With(c2, "sni", Str(P(m, "sni")));
    var c4 := SetIf(c3, IsYes(P(m, "skip-cert-verify")), "skip-cert-verify");
    TextAt(c, "password", P(m, "password"), k);
    TextAt(c2, "sni", P(m, "sni"), k);
    SwitchAt(c3, P(m, "skip-cert-verify"), "skip-cert-verify", k);
    SwitchAt(c4, P(m, "tfo"), "tfo", k);
    WsAt(SetIf(c4, IsYes(P(m, "tfo")), "tfo"), m, k);
    hide TextOver, SwitchOver, WsRead, On;
  }

  lemma Hysteria2At(c: Fields, m: Params, k: string)
    ensures At(ReadHysteria2(c, m), k) == FieldRead("hysteria2", m, k, At(c, k))
  {
    hide P, TrimSpace, ToLower, With, SetIf, IsYes;
    var c1 := With(c, "password", Str(P(m, "password")));
    var c2 := With(c1, "sni", Str(P(m, "sni")));
    TextAt(c, "password", P(m, "password"), k);
    TextAt(c1, "sni", P(m, "sni"), k);
    SwitchAt(c2, P(m, "skip-cert-verify"), "skip-cert-verify", k);
    hide TextOver, SwitchOver;
  }

  /** Every field of a node that is read, from whatever line, is the one its parameters stand for. */
  lemma FieldsAre(typ: string, c: Fields, m: Params, k: string)
    requires IsKnown(typ)
    ensures At(FieldsRead(typ, c, m), k) == FieldRead(typ, m, k, At(c, k))
  {
    hide ReadSS, ReadVMess, ReadTrojan, ReadHysteria2, FieldRead, At;
    SSAt(c, m, k);
    VMessAt(c, m, k);
    TrojanAt(c, m, k);
    Hysteria2At(c, m, k);
  }

  /**
    A line is read by place: the name before the first equals sign, then type, server and port between
    commas, then the parameters; blanks around them do not count.
   */
  lemma LinePlaces(name: string, typ: string, server: string, port: string, rest: seq<string>, other: OtherReader)
    requires '=' !in name && ',' !in typ && ',' !in server && ',' !in port
    requires forall i :: 0 <= i < |rest| ==> ',' !in rest[i]
    ensures LineRead(name + "=" + Join([typ, server, port] + rest, ","), other) ==
            NodeRead(ToLower(TrimSpace(typ)), TrimSpace(name), TrimSpace(server), AtoiPort(port), rest, other)
  {
    hide *;
    var tokens := [typ, server, port] + rest;
    SplitJoin(tokens, ',');
    CutAt(name, '=', Join(tokens, ","));
    assert tokens[0] == typ && tokens[1] == server && tokens[2] == port && tokens[3..] == rest;
    assert name + ['='] + Join(tokens, ",") == name + "=" + Join(tokens, ",");
    TokensRead(name + "=" + Join(tokens, ","), name, Join(tokens, ","), tokens, other);
  }

  lemma TokensRead(line: string, name: string, tail: string, tokens: seq<string>, other: OtherReader)
    requires Cut(line, '=') == CutResult(name, tail, true) && Split(tail, ',') == tokens && |tokens| >= 3
    ensures LineRead(line, other) ==
            NodeRead(ToLower(TrimSpace(tokens[0])), TrimSpace(name), TrimSpace(tokens[1]), AtoiPort(tokens[2]),
                     tokens[3..], other)
  {
    hide NodeRead, TrimSpace, ToLower, AtoiPort, Cut, Split;
  }

  /** Of a read line's node the type, the name and the address are those places; the rest are its fields. */
  lemma NodeIs(typ: string, name: string, server: string, port: int, extra: seq<string>, other: OtherReader, k: string)
    requires IsKnown(typ) && name != "" && server != "" && port != 0
    ensures var p := NodeRead(typ, name, server, port, extra, other);
            var seed := map["name" := Str(name), "type" := Str(typ), "server" := Str(server), "port" := Int(port)];
            && p.Some? && p.value.name == name && p.value.typ == typ && p.value.server == server && p.value.port == port
            && At(p.value.clash, k) == FieldRead(typ, ParamsOf(extra), k, At(seed, k))
  {
    FieldsAre(typ, Seed(typ, name, server, port), ParamsOf(extra), k);
    hide FieldsRead, FieldRead, ParamsOf, At;
  }

  /** A parameter is what stands after the first equals sign of its token; the last token of a key counts. */
  lemma ParamIs(extra: seq<string>, token: string, k: string)
    ensures var m := ParamsOf(extra + [token]);
            var t := TrimSpace(token);
            var cut := Cut(t, '=');
            P(m, k) == if t != "" && cut.found && k == ToLower(TrimSpace(cut.before)) then TrimSpace(cut.after)
                       else P(ParamsOf(extra), k)
  {
    assert (extra + [token])[..|extra|] == extra;
    hide TrimSpace, ToLower, Cut;
  }
}
