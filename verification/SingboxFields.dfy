/**
  sing-box outbounds in the open: under which JSON key an object says what of a node, and which key of any
  object the reader puts under which key of a node (internal/generator/singbox.go, internal/parser/singbox.go).
 */
module SingboxFields {
  import opened Wrappers
  import opened Text
  import opened Decimal
  import opened Values
  import opened Accessors
  import opened LinkText
  import opened JsonTrees
  import opened SingboxOutbounds

  // ---------- what is printed ----------

  /** A text that is printed unless it is empty. */
  function Some1(s: string): Option<Value> { if s != "" then Some(Str(s)) else None }

  /** A number that is printed when it is positive. */
  function Positive1(n: int): Option<Value> { if n > 0 then Some(Int(n)) else None }

  function Switch1(b: bool): Option<Value> { if b then Some(Bool(true)) else None }

  /** The keys that every object may have. */
  function CommonText(n: Node, key: string): Option<Value>
  {
    match key
    case "tag" => Some(Str(n.name))
    case "server" => Some(Str(CS(n.clash, "server")))
    case "server_port" => Some(Int(CI(n.clash, "port")))
    case "tcp_fast_open" =>
      Switch1(CB(n.clash, "tfo") && n.typ in {"ss", "vmess", "vless", "trojan", "socks5", "socks"})
    case _ => None
  }

  /** The options text of an ss plugin. */
  function PluginWords(c: Fields): string
  {
    var o := CMap(c, "plugin-opts");
    var host, path := CS(o, "host"), CS(o, "path");
    if CS(c, "plugin") == "obfs" then "obfs=" + CS(o, "mode") + (if host != "" then ";obfs-host=" + host else "")
    else
      "mode=" + (if CS(o, "mode") != "" then CS(o, "mode") else "websocket") + (if CB(o, "tls") then ";tls" else "")
      + (if host != "" then ";host=" + host else "") + (if path != "" then ";path=" + path else "")
  }

  /** What the object of a node holds under a JSON key, tls, transport and nested objects apart. */
  function ObjectField(n: Node, key: string): Option<Value>
  {
    var c := n.clash;
    match n.typ
    case "ss" => (
      match key
      case "type" => Some(Str("shadowsocks"))
      case "method" => Some(Str(CS(c, "cipher")))
      case "password" => Some(Str(CS(c, "password")))
      case "plugin" =>
        if CS(c, "plugin") == "obfs" then Some(Str("obfs-local"))
        else if CS(c, "plugin") == "v2ray-plugin" then Some(Str("v2ray-plugin")) else None
      case "plugin_opts" => if CS(c, "plugin") in {"obfs", "v2ray-plugin"} then Some(Str(PluginWords(c))) else None
      case _ => CommonText(n, key))
    case "vmess" => (
      match key
      case "type" => Some(Str("vmess"))
      case "uuid" => Some(Str(CS(c, "uuid")))
      case "alter_id" => Some(Int(CI(c, "alterId")))
      case "security" => Some(Str(if CS(c, "cipher") != "" then CS(c, "cipher") else "auto"))
      case _ => CommonText(n, key))
    case "vless" => (
      match key
      case "type" => Some(Str("vless"))
      case "uuid" => Some(Str(CS(c, "uuid")))
      case "flow" => Some1(CS(c, "flow"))
      case _ => CommonText(n, key))
    case "trojan" => (
      match key
      case "type" => Some(Str("trojan"))
      case "password" => Some(Str(CS(c, "password")))
      case _ => CommonText(n, key))
    case "hysteria2" => (
      match key
      case "type" => Some(Str("hysteria2"))
      case "password" => Some(Str(CS(c, "password")))
      case _ => CommonText(n, key))
    case "tuic" => (
      match key
      case "type" => Some(Str("tuic"))
      case "uuid" => Some(Str(CS(c, "uuid")))
      case "password" => Some(Str(CS(c, "password")))
      case "congestion_control" => Some1(CS(c, "congestion-controller"))
      case _ => CommonText(n, key))
    case "http" => (
      match key
      case "type" => Some(Str("http"))
      case "username" => Some1(CS(c, "username"))
      case "password" => Some1(CS(c, "password"))
      case _ => CommonText(n, key))
    case "wireguard" => (
      match key
      case "type" => Some(Str("wireguard"))
      case "private_key" => Some(Str(CS(c, "private-key")))
      case "peer_public_key" => Some(Str(CS(c, "public-key")))
      case "pre_shared_key" => Some1(CS(c, "pre-shared-key"))
      case "mtu" => Positive1(CI(c, "mtu"))
      case _ => CommonText(n, key))
    case "hysteria" => (
      match key
      case "type" => Some(Str("hysteria"))
      case "auth_str" => Some1(CS(c, "auth-str"))
      case "up_mbps" => Positive1(CI(c, "up"))
      case "down_mbps" => Positive1(CI(c, "down"))
      case "obfs" => Some1(CS(c, "obfs"))
      case _ => CommonText(n, key))
    case _ => (
      match key
      case "type" => Some(Str("socks"))
      case "version" => Some(Str("5"))
      case "username" => Some1(CS(c, "username"))
      case "password" => Some1(CS(c, "password"))
      case _ => CommonText(n, key))
  }

  const NESTED: set<string> := {"tls", "transport", "local_address", "reserved"}

  lemma PluginWordsAre(c: Fields)
    ensures PluginOf(c) != NoPlugin ==> PluginText(PluginOf(c)) == PluginWords(c)
  {
    var o := CMap(c, "plugin-opts");
    var mode, host, path := CS(o, "mode"), CS(o, "host"), CS(o, "path");
    if CS(c, "plugin") == "obfs" {
      ObfsWords(mode, host);
    } else if CS(c, "plugin") == "v2ray-plugin" {
      V2rayWords(FirstNonEmpty(mode, "websocket"), CB(o, "tls"), host, path);
    }
    hide CS, CB, CMap, Join;
  }

  lemma ObfsWords(mode: string, host: string)
    ensures PluginText(Obfs(mode, host)) == "obfs=" + mode + (if host != "" then ";obfs-host=" + host else "")
  {
    var first, second := "obfs=" + mode, "obfs-host=" + host;
    JoinOne(first, ";");
    if host != "" {
      JoinSnoc([first], second, ";");
      assert first + ";" + second == first + (";obfs-host=" + host);
    } else {
      assert [first] + [] == [first];
    }
  }

  lemma Appended(parts: seq<string>, b: bool, part: string)
    requires parts != []
    ensures Join(parts + (if b then [part] else []), ";") == Join(parts, ";") + (if b then ";" + part else "")
    ensures parts + (if b then [part] else []) != []
  {
    if b {
      JoinSnoc(parts, part, ";");
      assert Join(parts, ";") + ";" + part == Join(parts, ";") + (";" + part);
    } else {
      assert parts + [] == parts && Join(parts, ";") + "" == Join(parts, ";");
    }
  }

  lemma V2rayWords(mode: string, tls: bool, host: string, path: string)
    ensures PluginText(V2ray(mode, tls, host, path)) ==
            "mode=" + mode + (if tls then ";tls" else "") + (if host != "" then ";host=" + host else "")
            + (if path != "" then ";path=" + path else "")
  {
    var p1 := ["mode=" + mode];
    var p2 := p1 + if tls then ["tls"] else [];
    var p3 := p2 + if host != "" then ["host=" + host] else [];
    JoinOne("mode=" + mode, ";");
    Appended(p1, tls, "tls");
    Appended(p2, host != "", "host=" + host);
    Appended(p3, path != "", "path=" + path);
    assert ";" + "tls" == ";tls";
    assert ";" + ("host=" + host) == ";host=" + host && ";" + ("path=" + path) == ";path=" + path;
    hide Join;
  }

  lemma SSObject(n: Node, key: string)
    requires n.typ == "ss" && key !in NESTED
    ensures Rendered(n).Some? && At(Rendered(n).value, key) == ObjectField(n, key)
  {
    PluginWordsAre(n.clash);
    hide CS, CB, CI, CMap, PluginText, PluginWords, Json, At;
    SSJsonAt(OutboundOf(n).value, key);
  }

  lemma VMessObject(n: Node, key: string)
    requires n.typ == "vmess" && key !in NESTED
    ensures Rendered(n).Some? && At(Rendered(n).value, key) == ObjectField(n, key)
  {
    hide CS, CB, CI, CMap, TlsOf, TransportOf, Json, At;
    VMessJsonAt(OutboundOf(n).value, key);
  }

  lemma VLessObject(n: Node, key: string)
    requires n.typ == "vless" && key !in NESTED
    ensures Rendered(n).Some? && At(Rendered(n).value, key) == ObjectField(n, key)
  {
    hide CS, CB, CI, CMap, TlsOf, TransportOf, Json, At;
    VLessJsonAt(OutboundOf(n).value, key);
  }

  lemma TrojanObject(n: Node, key: string)
    requires n.typ == "trojan" && key !in NESTED
    ensures Rendered(n).Some? && At(Rendered(n).value, key) == ObjectField(n, key)
  {
    hide CS, CB, CI, CMap, TlsOf, TransportOf, Json, At;
    TrojanJsonAt(OutboundOf(n).value, key);
  }

  lemma Hysteria2Object(n: Node, key: string)
    requires n.typ == "hysteria2" && key !in NESTED && key != "obfs"
    ensures Rendered(n).Some? && At(Rendered(n).value, key) == ObjectField(n, key)
  {
    hide CS, CB, CI, CMap, TlsOf, Json, At, ObfsTable;
    Hysteria2JsonAt(OutboundOf(n).value, key);
  }

  lemma TuicObject(n: Node, key: string)
    requires n.typ == "tuic" && key !in NESTED
    ensures Rendered(n).Some? && At(Rendered(n).value, key) == ObjectField(n, key)
  {
    hide CS, CB, CI, CMap, TlsOf, Json, At;
    TuicJsonAt(OutboundOf(n).value, key);
  }

  lemma SocksObject(n: Node, key: string)
    requires n.typ in {"socks5", "socks"} && key !in NESTED
    ensures Rendered(n).Some? && At(Rendered(n).value, key) == ObjectField(n, key)
  {
    hide CS, CB, CI, Json, At;
    SocksJsonAt(OutboundOf(n).value, key);
  }

  lemma HttpObject(n: Node, key: string)
    requires n.typ == "http" && key !in NESTED
    ensures Rendered(n).Some? && At(Rendered(n).value, key) == ObjectField(n, key)
  {
    hide CS, CB, CI, CMap, TlsOf, Json, At;
    HttpJsonAt(OutboundOf(n).value, key);
  }

  lemma WireGuardObject(n: Node, key: string)
    requires n.typ == "wireguard" && key !in NESTED
    ensures Rendered(n).Some? && At(Rendered(n).value, key) == ObjectField(n, key)
  {
    hide CS, CB, CI, Json, At, ReservedOf, WithPrefix, Addresses;
    WireGuardJsonAt(OutboundOf(n).value, key);
  }

  lemma HysteriaObject(n: Node, key: string)
    requires n.typ == "hysteria" && key !in NESTED
    ensures Rendered(n).Some? && At(Rendered(n).value, key) == ObjectField(n, key)
  {
    hide CS, CB, CI, CMap, TlsOf, Json, At;
    HysteriaJsonAt(OutboundOf(n).value, key);
  }

  predicate IsKind(typ: string)
  {
    typ in {"ss", "vmess", "vless", "trojan", "hysteria2", "tuic", "socks5", "socks", "http", "wireguard", "hysteria"}
  }

  /** Every key of every printed object holds what the node's own fields say, nested objects apart. */
  lemma ObjectFields(n: Node, key: string)
    requires key !in NESTED && !(n.typ == "hysteria2" && key == "obfs")
    ensures Rendered(n).Some? <==> IsKind(n.typ)
    ensures IsKind(n.typ) ==> At(Rendered(n).value, key) == ObjectField(n, key)
  {
    hide ObjectField, At, KindOf, NESTED;
    if IsKind(n.typ) {
      match n.typ {
        case "ss" => SSObject(n, key);
        case "vmess" => VMessObject(n, key);
        case "vless" => VLessObject(n, key);
        case "trojan" => TrojanObject(n, key);
        case "hysteria2" => Hysteria2Object(n, key);
        case "tuic" => TuicObject(n, key);
        case "http" => HttpObject(n, key);
        case "wireguard" => WireGuardObject(n, key);
        case "hysteria" => HysteriaObject(n, key);
        case _ => SocksObject(n, key);
      }
    } else {
      NoKind(n);
    }
    hide Rendered;
  }

  lemma NoKind(n: Node)
    requires !IsKind(n.typ)
    ensures Rendered(n).None?
  {
    hide CS, CB, CI;
  }

  // ---------- nested objects ----------

  function One(key: string, v: Option<Value>): Fields { if v.Some? then map[key := v.value] else map[] }

  function ServerName(c: Fields): string { if CS(c, "servername") != "" then CS(c, "servername") else CS(c, "sni") }

  /** The reality object of a node with reality options. */
  function RealityObject(ro: Fields): Fields
  {
    map["enabled" := Bool(true)] + One("public_key", Some1(CS(ro, "public-key")))
    + One("short_id", Some1(CS(ro, "short-id")))
  }

  function UtlsObject(fingerprint: string): Fields
  {
    map["enabled" := Bool(true), "fingerprint" := Str(fingerprint)]
  }

  /** The tls object of a node that has one. */
  function TlsObject(c: Fields): Fields
  {
    var alpn, fingerprint, ro := SplitAny(At(c, "alpn")), CS(c, "client-fingerprint"), CMap(c, "reality-opts");
    map["enabled" := Bool(true)] + One("server_name", Some1(ServerName(c)))
    + One("insecure", Switch1(CB(c, "skip-cert-verify")))
    + One("alpn", if alpn != [] then Some(Strs(alpn)) else None)
    + One("utls", if fingerprint != "" then Some(Map(UtlsObject(fingerprint))) else None)
    + One("reality", if ro != map[] then Some(Map(RealityObject(ro))) else None)
  }

  /** Protocols that are TLS by nature have a tls object always, others when the node says so. */
  predicate HasTls(n: Node)
  {
    || n.typ in {"trojan", "hysteria2", "tuic", "hysteria"}
    || (n.typ in {"vmess", "vless", "http"} && (CB(n.clash, "tls") || CMap(n.clash, "reality-opts") != map[]))
  }

  /** The transport object for a network that has one. */
  function TransportObject(c: Fields): Option<Fields>
  {
    var ws, grpc, h2 := CMap(c, "ws-opts"), CMap(c, "grpc-opts"), CMap(c, "h2-opts");
    var wsHost, h2Host := CS(CMap(ws, "headers"), "Host"), JoinAny(At(h2, "host"));
    match CS(c, "network")
    case "ws" =>
      Some(map["type" := Str("ws")] + One("path", Some1(CS(ws, "path")))
           + One("headers", if wsHost != "" then Some(Map(map["Host" := Str(wsHost)])) else None))
    case "grpc" => Some(map["type" := Str("grpc"), "service_name" := Str(CS(grpc, "grpc-service-name"))])
    case "h2" =>
      Some(map["type" := Str("http")] + One("path", Some1(CS(h2, "path")))
           + One("host", if h2Host != "" then Some(Strs([h2Host])) else None))
    case _ => None
  }

  lemma SameFields(a: Fields, b: Fields)
    requires forall k :: At(a, k) == At(b, k)
    ensures a == b
  {
    forall k
      ensures k in a <==> k in b
      ensures k in a ==> a[k] == b[k]
    {
      assert At(a, k) == At(b, k);
    }
  }

  lemma OneAt(m: Fields, key: string, v: Option<Value>, k: string)
    ensures At(m + One(key, v), k) == if k == key && v.Some? then v else At(m, k)
  {
  }

  lemma RealityIs(ro: Fields)
    ensures RealityTable(Reality(CS(ro, "public-key"), CS(ro, "short-id"))) == RealityObject(ro)
  {
    var r := Reality(CS(ro, "public-key"), CS(ro, "short-id"));
    hide CS, RealityTable, One;
    var e := map["enabled" := Bool(true)];
    var e1 := e + One("public_key", Some1(r.key));
    forall k
      ensures At(RealityTable(r), k) == At(RealityObject(ro), k)
    {
      RealityAt(r, k);
      OneAt(e, "public_key", Some1(r.key), k);
      OneAt(e1, "short_id", Some1(r.shortId), k);
    }
    SameFields(RealityTable(r), RealityObject(ro));
  }

  lemma UtlsIs(fingerprint: string)
    ensures UtlsTable(fingerprint) == UtlsObject(fingerprint)
  {
    forall k
      ensures At(UtlsTable(fingerprint), k) == At(UtlsObject(fingerprint), k)
    {
      UtlsAt(fingerprint, k);
    }
    hide UtlsTable, UtlsObject;
    SameFields(UtlsTable(fingerprint), UtlsObject(fingerprint));
  }

  lemma TlsIs(c: Fields, always: bool)
    requires TlsOf(c, always).Tls?
    ensures Table(TlsEntries(TlsOf(c, always))) == TlsObject(c)
  {
    var t, ro := TlsOf(c, always), CMap(c, "reality-opts");
    RealityIs(ro);
    UtlsIs(t.fingerprint);
    hide CS, CB, CMap, SplitAny, RealityTable, RealityObject, UtlsTable, UtlsObject, Table, TlsEntries, One;
    var e1 := map["enabled" := Bool(true)] + One("server_name", Some1(t.sni));
    var e2 := e1 + One("insecure", Switch1(t.insecure));
    var alpn := if t.alpn != [] then Some(Strs(t.alpn)) else None;
    var e3 := e2 + One("alpn", alpn);
    var utls := if t.fingerprint != "" then Some(Map(UtlsObject(t.fingerprint))) else None;
    var e4 := e3 + One("utls", utls);
    var reality := if ro != map[] then Some(Map(RealityObject(ro))) else None;
    assert TlsObject(c) == e4 + One("reality", reality);
    var m := Table(TlsEntries(t));
    forall k
      ensures At(m, k) == At(TlsObject(c), k)
    {
      TlsAt(t, k);
      OneAt(map["enabled" := Bool(true)], "server_name", Some1(t.sni), k);
      OneAt(e1, "insecure", Switch1(t.insecure), k);
      OneAt(e2, "alpn", alpn, k);
      OneAt(e3, "utls", utls, k);
      OneAt(e4, "reality", reality, k);
    }
    SameFields(m, TlsObject(c));
  }

  lemma TlsOfKind(n: Node)
    requires OutboundOf(n).Some?
    ensures var t := TlsIn(OutboundOf(n).value.kind);
            && (t.Tls? <==> HasTls(n))
            && (t.Tls? ==> exists always :: t == TlsOf(n.clash, always))
  {
    hide CS, CI, CB, CMap, GetSNI, SplitAny, TransportOf, PluginOf, ReservedOf, WithPrefix;
    var c := n.clash;
    var t := TlsIn(OutboundOf(n).value.kind);
    assert t.Tls? ==> t == TlsOf(c, true) || t == TlsOf(c, false);
  }

  /** The tls object of a printed node, and which nodes have one. */
  lemma TlsObjects(n: Node)
    requires Rendered(n).Some?
    ensures At(Rendered(n).value, "tls") == if HasTls(n) then Some(Map(TlsObject(n.clash))) else None
  {
    TlsOfKind(n);
    CommonInJson(OutboundOf(n).value);
    var t := TlsIn(OutboundOf(n).value.kind);
    if t.Tls? {
      var always :| t == TlsOf(n.clash, always);
      TlsIs(n.clash, always);
    }
    hide OutboundOf, TlsOf, TlsObject, TlsEntries, Table, At, HasTls, Json, TlsIn;
  }

  lemma TransportIs(c: Fields)
    ensures var t := TransportOf(c);
            TransportObject(c) == if t.Plain? then None else Some(Table(TransportEntries(t)))
  {
    hide CS, CMap, JoinAny, Table, One, TransportEntries;
    match TransportOf(c) {
      case Plain =>
      case Ws(path, host) => WsIs(path, host);
      case Grpc(service) => GrpcIs(service);
      case H2(path, host) => H2Is(path, host);
    }
  }

  lemma WsIs(path: string, host: string)
    ensures Table(TransportEntries(Ws(path, host))) ==
            map["type" := Str("ws")] + One("path", Some1(path))
            + One("headers", if host != "" then Some(Map(map["Host" := Str(host)])) else None)
  {
    var headers := if host != "" then Some(Map(map["Host" := Str(host)])) else None;
    HostIs(host);
    var e0 := map["type" := Str("ws")];
    var e1 := e0 + One("path", Some1(path));
    var m := Table(TransportEntries(Ws(path, host)));
    hide Table, One;
    forall k
      ensures At(m, k) == At(e1 + One("headers", headers), k)
    {
      OneAt(e0, "path", Some1(path), k);
      OneAt(e1, "headers", headers, k);
      LookupNone(k);
      LookupWhen([], true, "type", Str("ws"), k);
      LookupWhen([] + When(true, "type", Str("ws")), path != "", "path", Str(path), k);
      LookupWhen([] + When(true, "type", Str("ws")) + When(path != "", "path", Str(path)), host != "", "headers",
                 Map(Table([] + When(true, "Host", Str(host)))), k);
    }
    SameFields(m, e1 + One("headers", headers));
  }

  lemma HostIs(host: string)
    ensures Table([] + When(true, "Host", Str(host))) == map["Host" := Str(host)]
  {
    TableWhen([], true, "Host", Str(host));
    assert Table([]) == map[];
  }

  lemma GrpcIs(service: string)
    ensures Table(TransportEntries(Grpc(service))) == map["type" := Str("grpc"), "service_name" := Str(service)]
  {
    TableWhen([], true, "type", Str("grpc"));
    TableWhen([] + When(true, "type", Str("grpc")), true, "service_name", Str(service));
    assert Table([]) == map[];
    hide Table;
  }

  lemma H2Is(path: string, host: string)
    ensures Table(TransportEntries(H2(path, host))) ==
            map["type" := Str("http")] + One("path", Some1(path))
            + One("host", if host != "" then Some(Strs([host])) else None)
  {
    var hosts := if host != "" then Some(Strs([host])) else None;
    var e0 := map["type" := Str("http")];
    var e1 := e0 + One("path", Some1(path));
    var m := Table(TransportEntries(H2(path, host)));
    hide Table, One;
    forall k
      ensures At(m, k) == At(e1 + One("host", hosts), k)
    {
      OneAt(e0, "path", Some1(path), k);
      OneAt(e1, "host", hosts, k);
      LookupNone(k);
      LookupWhen([], true, "type", Str("http"), k);
      LookupWhen([] + When(true, "type", Str("http")), path != "", "path", Str(path), k);
      LookupWhen([] + When(true, "type", Str("http")) + When(path != "", "path", Str(path)), host != "", "host",
                 Strs([host]), k);
    }
    SameFields(m, e1 + One("host", hosts));
  }

  function TransportIn(k: Kind): Transport
  {
    if k.VMess? || k.VLess? || k.Trojan? then k.transport else Plain
  }

  lemma TransportInJson(o: Outbound)
    ensures var t := TransportIn(o.kind);
            At(Json(o), "transport") == if t.Plain? then None else Some(Map(Table(TransportEntries(t))))
  {
    hide At, Json, Table, TransportEntries, TlsEntries, RealityTable, UtlsTable;
    match o.kind {
      case VMess(_, _, _, _, _) => VMessJsonAt(o, "transport");
      case VLess(_, _, _, _) => VLessJsonAt(o, "transport");
      case Trojan(_, _, _) => TrojanJsonAt(o, "transport");
      case _ => NoTransportInJson(o);
    }
  }

  lemma NoTransportInJson(o: Outbound)
    requires !(o.kind.VMess? || o.kind.VLess? || o.kind.Trojan?)
    ensures At(Json(o), "transport") == None
  {
    hide At, Json, Table, TlsEntries, RealityTable, UtlsTable, ObfsTable, PluginText, Addresses;
    match o.kind {
      case SS(_, _, _) => SSJsonAt(o, "transport");
      case Hysteria2(_, _, _, _) => Hysteria2JsonAt(o, "transport");
      case Tuic(_, _, _, _) => TuicJsonAt(o, "transport");
      case Socks(_, _) => SocksJsonAt(o, "transport");
      case Http(_, _, _) => HttpJsonAt(o, "transport");
      case WireGuard(_, _, _, _, _, _, _) => WireGuardJsonAt(o, "transport");
      case Hysteria(_, _, _, _, _) => HysteriaJsonAt(o, "transport");
      case _ =>
    }
  }

  lemma TransportOfKind(n: Node)
    requires OutboundOf(n).Some?
    ensures TransportIn(OutboundOf(n).value.kind) ==
            if n.typ in {"vmess", "vless", "trojan"} then TransportOf(n.clash) else Plain
  {
    hide CS, CI, CB, CMap, TlsOf, TransportOf, PluginOf, ReservedOf, WithPrefix;
  }

  /** The transport object of a printed node: for vmess, vless and trojan, by its network. */
  lemma TransportObjects(n: Node)
    requires Rendered(n).Some?
    ensures At(Rendered(n).value, "transport") ==
            if n.typ in {"vmess", "vless", "trojan"} && TransportObject(n.clash).Some?
            then Some(Map(TransportObject(n.clash).value)) else None
  {
    hide OutboundOf, TransportOf, TransportObject, TransportEntries, Table, At, Json, TransportIn;
    TransportOfKind(n);
    TransportIs(n.clash);
    TransportInJson(OutboundOf(n).value);
  }

  /** An address as it is printed: with a prefix length, the node's own or that of one host. */
  function AddressText(ip: string, host: string): string { if '/' in ip then ip else ip + host }

  /** The obfs object of hysteria2. */
  function ObfsObject(c: Fields): Option<Value>
  {
    if CS(c, "obfs") == "" then None
    else Some(Map(map["type" := Str(CS(c, "obfs")), "password" := Str(CS(c, "obfs-password"))]))
  }

  /** The local addresses of wireguard. */
  function AddressList(c: Fields): Option<Value>
  {
    var ip, ipv6 := CS(c, "ip"), CS(c, "ipv6");
    if ip == "" && ipv6 == "" then None
    else
      Some(Strs((if ip != "" then [AddressText(ip, "/32")] else [])
                + (if ipv6 != "" then [AddressText(ipv6, "/128")] else [])))
  }

  function ReservedList(c: Fields): Option<Value>
  {
    var reserved := ReservedOf(At(c, "reserved"));
    if reserved != [] then Some(Ints(reserved)) else None
  }

  /** The obfuscation of hysteria2, and the addresses and reserved bytes of wireguard. */
  lemma OtherObjects(n: Node)
    requires Rendered(n).Some?
    ensures n.typ == "hysteria2" ==> At(Rendered(n).value, "obfs") == ObfsObject(n.clash)
    ensures n.typ == "wireguard" ==> At(Rendered(n).value, "local_address") == AddressList(n.clash)
    ensures n.typ == "wireguard" ==> At(Rendered(n).value, "reserved") == ReservedList(n.clash)
  {
    hide CS, CI, CB, CMap, TlsOf, At, Json, ReservedOf;
    if n.typ == "hysteria2" {
      var o := OutboundOf(n).value;
      Hysteria2JsonAt(o, "obfs");
      ObfsIs(o.kind.obfs, o.kind.obfsPassword);
      hide ObfsTable;
    } else if n.typ == "wireguard" {
      var o := OutboundOf(n).value;
      WireGuardJsonAt(o, "local_address");
      WireGuardJsonAt(o, "reserved");
    }
  }

  lemma ObfsIs(obfs: string, password: string)
    ensures ObfsTable(obfs, password) == map["type" := Str(obfs), "password" := Str(password)]
  {
    TableWhen([], true, "type", Str(obfs));
    TableWhen([] + When(true, "type", Str(obfs)), true, "password", Str(password));
    assert Table([]) == map[];
    hide Table;
  }
}
