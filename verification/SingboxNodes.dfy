/**
  sing-box outbounds read: which key of any outbound object the reader puts under which key of the node, whoever
  wrote the object (internal/parser/singbox.go).
 */
module SingboxNodes {
  import opened Wrappers
  import opened Text
  import opened Decimal
  import opened Values
  import opened Accessors
  import opened LinkText
  import opened JsonTrees
  import opened SingboxOutbounds
  import opened SingboxFields

  /** A member object, empty when there is none. */
  function Sub(m: Fields, key: string): Fields { if JMap(m, key).Some? then JMap(m, key).value else map[] }

  /** The text of the reality keys that a node keeps. */
  function RealityText(tls: Fields, key: string): Option<Value>
  {
    match key
    case "public-key" => Some1(JText(Sub(tls, "reality"), "public_key"))
    case "short-id" => Some1(JText(Sub(tls, "reality"), "short_id"))
    case _ => None
  }

  /** Which keys of a node the tls object of an outbound sets. */
  function FromTls(tls: Fields, key: string): Option<Value>
  {
    match key
    case "tls" =>
      Switch1(JFlag(tls, "enabled") || JText(tls, "server_name") != "" || Sub(tls, "reality") != map[])
    case "sni" => Some1(JText(tls, "server_name"))
    case "skip-cert-verify" => Switch1(JFlag(tls, "insecure"))
    case "alpn" => if AlpnIn(tls) != [] then Some(Strs(AlpnIn(tls))) else None
    case "client-fingerprint" => Some1(JText(Sub(tls, "utls"), "fingerprint"))
    case "reality-opts" => if RealityIn(tls) != map[] then Some(Map(RealityIn(tls))) else None
    case _ => None
  }

  /** Which keys of a node the transport object of an outbound sets. */
  function FromTransport(tr: Fields, key: string): Option<Value>
  {
    match JText(tr, "type")
    case "ws" =>
      if key == "network" then Some(Str("ws"))
      else if key == "ws-opts" then Some(Map(WsOptions(tr))) else None
    case "grpc" =>
      if key == "network" then Some(Str("grpc"))
      else if key == "grpc-opts" then Some(Map(map["grpc-service-name" := Str(JText(tr, "service_name"))])) else None
    case "http" =>
      if key == "network" then Some(Str("h2"))
      else if key == "h2-opts" then Some(Map(H2Options(tr))) else None
    case _ => None
  }

  /** Which keys of a node the plugin of a shadowsocks outbound sets. */
  function FromPlugin(ob: Fields, key: string): Option<Value>
  {
    var parts := Split(JText(ob, "plugin_opts"), ';');
    match JText(ob, "plugin")
    case "obfs-local" =>
      if key == "plugin" then Some(Str("obfs"))
      else if key == "plugin-opts" then Some(Map(ObfsOptions(parts))) else None
    case "obfs" =>
      if key == "plugin" then Some(Str("obfs"))
      else if key == "plugin-opts" then Some(Map(ObfsOptions(parts))) else None
    case "v2ray-plugin" =>
      if key == "plugin" then Some(Str("v2ray-plugin"))
      else if key == "plugin-opts" then Some(Map(V2rayOptions(parts))) else None
    case _ => None
  }

  predicate ReadsTls(typ: string)
  {
    typ in {"vmess", "vless", "trojan", "hysteria2", "hysteria", "tuic", "anytls", "http"}
  }

  predicate ReadsTransport(typ: string) { typ in {"vmess", "vless", "trojan"} }

  /** What a node of each type holds under a key that neither tls nor transport nor plugin sets. */
  function OwnField(typ: string, ob: Fields, key: string): Option<Value>
  {
    match typ
    case "ss" => (
      match key
      case "cipher" => Some1(JText(ob, "method"))
      case "password" => Some1(JText(ob, "password"))
      case "tfo" => Switch1(JFlag(ob, "tcp_fast_open"))
      case _ => None)
    case "vmess" => (
      match key
      case "uuid" => Some1(JText(ob, "uuid"))
      case "alterId" => if JInt(ob, "alter_id") >= 0 then Some(Int(JInt(ob, "alter_id"))) else None
      case "cipher" => Some(Str(if JText(ob, "security") != "" then JText(ob, "security") else "auto"))
      case "tfo" => Switch1(JFlag(ob, "tcp_fast_open"))
      case _ => None)
    case "vless" => (
      match key
      case "uuid" => Some1(JText(ob, "uuid"))
      case "flow" => Some1(JText(ob, "flow"))
      case "tfo" => Switch1(JFlag(ob, "tcp_fast_open"))
      case _ => None)
    case "trojan" => (
      match key
      case "password" => Some1(JText(ob, "password"))
      case "udp" => Some(Bool(true))
      case "tfo" => Switch1(JFlag(ob, "tcp_fast_open"))
      case _ => None)
    case "hysteria2" => (
      match key
      case "password" => Some1(JText(ob, "password"))
      case "obfs" => Some1(JText(Sub(ob, "obfs"), "type"))
      case "obfs-password" => Some1(JText(Sub(ob, "obfs"), "password"))
      case _ => None)
    case "hysteria" => (
      match key
      case "auth-str" => Some1(JText(ob, "auth_str"))
      case "up" => if JInt(ob, "up_mbps") > 0 then Some(Str(Itoa(JInt(ob, "up_mbps")))) else None
      case "down" => if JInt(ob, "down_mbps") > 0 then Some(Str(Itoa(JInt(ob, "down_mbps")))) else None
      case "obfs" => Some1(JText(ob, "obfs"))
      case _ => None)
    case "tuic" => (
      match key
      case "uuid" => Some1(JText(ob, "uuid"))
      case "password" => Some1(JText(ob, "password"))
      case "congestion-controller" => Some1(JText(ob, "congestion_control"))
      case _ => None)
    case "anytls" => if key == "password" then Some1(JText(ob, "password")) else None
    case "wireguard" => (
      match key
      case "private-key" => Some1(JText(ob, "private_key"))
      case "public-key" => Some1(JText(ob, "peer_public_key"))
      case "pre-shared-key" => Some1(JText(ob, "pre_shared_key"))
      case "ip" => Some1(AddressOf(ListAt(ob, "local_address"), false))
      case "ipv6" => Some1(AddressOf(ListAt(ob, "local_address"), true))
      case "mtu" => Positive1(JInt(ob, "mtu"))
      case "reserved" =>
        if ListAt(ob, "reserved") != [] then Some(Ints(IntsOf(ListAt(ob, "reserved")))) else None
      case _ => None)
    case _ => (
      match key
      case "username" => Some1(JText(ob, "username"))
      case "password" => Some1(JText(ob, "password"))
      case _ => None)
  }

  /** An element of local_address as a text of the family asked for, "" when it is none. */
  function Address(v: Value, six: bool): string
  {
    if !v.Str? || (':' in TrimSpace(v.s)) != six then "" else TrimSuffix(TrimSpace(v.s), if six then "/128" else "/32")
  }

  /** The last address of a family that is not empty. */
  function AddressOf(items: seq<Value>, six: bool): string
  {
    if items == [] then ""
    else if Address(items[|items| - 1], six) != "" then Address(items[|items| - 1], six)
    else AddressOf(items[..|items| - 1], six)
  }

  function SeedOf(typ: string, tag: string, server: string, port: int, key: string): Option<Value>
  {
    match key
    case "name" => Some(Str(tag))
    case "type" => Some(Str(typ))
    case "server" => Some(Str(server))
    case "port" => Some(Int(port))
    case _ => None
  }

  /** The fields that a node's objects set, over its own, over what is there already. */
  function Layers(typ: string, ob: Fields, below: Option<Value>, key: string): Option<Value>
  {
    var own := Over(OwnField(typ, ob, key), below);
    if typ == "ss" then Over(FromPlugin(ob, key), own)
    else if ReadsTransport(typ) then
      Over(FromTransport(Sub(ob, "transport"), key), Over(FromTls(Sub(ob, "tls"), key), own))
    else if ReadsTls(typ) then Over(FromTls(Sub(ob, "tls"), key), own)
    else own
  }

  /** What a node read from an object holds under a key. */
  function NodeField(typ: string, tag: string, server: string, port: int, ob: Fields, key: string): Option<Value>
  {
    Layers(typ, ob, SeedOf(typ, tag, server, port, key), key)
  }

  // ---------- layer by layer ----------

  lemma TlsLayer(es: seq<Entry>, ob: Fields, key: string)
    ensures At(Table(WithTls(es, JMap(ob, "tls"))), key) == Over(FromTls(Sub(ob, "tls"), key), At(Table(es), key))
  {
    if JMap(ob, "tls").None? {
      assert Sub(ob, "tls") == map[];
      NothingToSay(key);
    } else {
      TlsSix(es, Sub(ob, "tls"), key);
    }
    hide WithTls, FromTls, At, Table;
  }

  lemma NothingToSay(key: string)
    ensures FromTls(map[], key) == None && FromTransport(map[], key) == None
  {
    assert Table([]) == map[];
    assert JText(map[], "type") == "";
    WithoutWords(key);
  }

  lemma WithoutWords(key: string)
    ensures RealityIn(map[]) == map[] && AlpnIn(map[]) == []
  {
  }

  lemma TlsSix(es: seq<Entry>, t: Fields, key: string)
    ensures At(Table(WithTls(es, Some(t))), key) == Over(FromTls(t, key), At(Table(es), key))
  {
    var on, name, fingerprint := TlsOn(t), JText(t, "server_name"), FingerprintIn(t);
    SixLayers(es, on, name, JFlag(t, "insecure"), AlpnIn(t), fingerprint, RealityIn(t), key);
    SixKeys(t, key);
    hide At, Table, When, TlsOn, JText, JFlag, AlpnIn, RealityIn, FingerprintIn, FromTls;
  }

  function LastOf(on: bool, name: string, insecure: bool, alpn: seq<string>, fingerprint: string, ro: Fields,
                  key: string): Option<Value>
  {
    if ro != map[] && key == "reality-opts" then Some(Map(ro))
    else if fingerprint != "" && key == "client-fingerprint" then Some(Str(fingerprint))
    else if alpn != [] && key == "alpn" then Some(Strs(alpn))
    else if insecure && key == "skip-cert-verify" then Some(Bool(true))
    else if name != "" && key == "sni" then Some(Str(name))
    else if on && key == "tls" then Some(Bool(true))
    else None
  }

  lemma SixLayers(es: seq<Entry>, on: bool, name: string, insecure: bool, alpn: seq<string>, fingerprint: string,
                  ro: Fields, key: string)
    ensures At(Table(es + When(on, "tls", Bool(true)) + When(name != "", "sni", Str(name))
                        + When(insecure, "skip-cert-verify", Bool(true))
                        + When(alpn != [], "alpn", Strs(alpn))
                        + When(fingerprint != "", "client-fingerprint", Str(fingerprint))
                        + When(ro != map[], "reality-opts", Map(ro))), key) ==
            Over(LastOf(on, name, insecure, alpn, fingerprint, ro, key), At(Table(es), key))
  {
    hide At, Table, When;
    var e1 := es + When(on, "tls", Bool(true));
    var e2 := e1 + When(name != "", "sni", Str(name));
    var e3 := e2 + When(insecure, "skip-cert-verify", Bool(true));
    var e4 := e3 + When(alpn != [], "alpn", Strs(alpn));
    var e5 := e4 + When(fingerprint != "", "client-fingerprint", Str(fingerprint));
    LookupWhen(es, on, "tls", Bool(true), key);
    LookupWhen(e1, name != "", "sni", Str(name), key);
    LookupWhen(e2, insecure, "skip-cert-verify", Bool(true), key);
    LookupWhen(e3, alpn != [], "alpn", Strs(alpn), key);
    LookupWhen(e4, fingerprint != "", "client-fingerprint", Str(fingerprint), key);
    LookupWhen(e5, ro != map[], "reality-opts", Map(ro), key);
  }

  lemma SixKeys(t: Fields, key: string)
    ensures FromTls(t, key) == LastOf(TlsOn(t), JText(t, "server_name"), JFlag(t, "insecure"), AlpnIn(t),
                                      FingerprintIn(t), RealityIn(t), key)
  {
    FingerprintIs(t);
    hide TlsOn, JText, JFlag, AlpnIn, RealityIn, FingerprintIn, JMap, Sub;
    OnIs(t);
    match key {
      case "tls" =>
      case "sni" =>
      case "skip-cert-verify" =>
      case "alpn" =>
      case "client-fingerprint" =>
      case "reality-opts" =>
      case _ =>
    }
  }

  lemma FingerprintIs(t: Fields)
    ensures FingerprintIn(t) == JText(Sub(t, "utls"), "fingerprint")
  {
    assert JText(map[], "fingerprint") == "";
    hide TrimSpace;
  }

  lemma OnIs(t: Fields)
    ensures TlsOn(t) == (JFlag(t, "enabled") || JText(t, "server_name") != "" || Sub(t, "reality") != map[])
  {
    hide JText, JFlag;
  }

  lemma Single(key: string, s: string)
    ensures Table([] + When(true, key, Str(s))) == map[key := Str(s)]
  {
    TableWhen([], true, key, Str(s));
    assert Table([]) == map[];
  }

  lemma TransportLayer(es: seq<Entry>, ob: Fields, key: string)
    ensures At(Table(WithTransport(es, JMap(ob, "transport"))), key) ==
            Over(FromTransport(Sub(ob, "transport"), key), At(Table(es), key))
  {
    if JMap(ob, "transport").None? {
      assert Sub(ob, "transport") == map[];
      NothingToSay(key);
    } else {
      TransportTwo(es, Sub(ob, "transport"), key);
    }
    hide WithTransport, FromTransport, At, Table;
  }

  lemma TransportTwo(es: seq<Entry>, t: Fields, key: string)
    ensures At(Table(WithTransport(es, Some(t))), key) == Over(FromTransport(t, key), At(Table(es), key))
  {
    Single("grpc-service-name", JText(t, "service_name"));
    hide At, Table, When, JText, WsOptions, H2Options;
    match JText(t, "type") {
      case "ws" => TwoFields(es, "ws", "ws-opts", WsOptions(t), key);
      case "grpc" => TwoFields(es, "grpc", "grpc-opts", map["grpc-service-name" := Str(JText(t, "service_name"))], key);
      case "http" => TwoFields(es, "h2", "h2-opts", H2Options(t), key);
      case _ =>
    }
  }

  lemma PluginLayer(es: seq<Entry>, ob: Fields, key: string)
    ensures At(Table(WithPlugin(es, JText(ob, "plugin"), JText(ob, "plugin_opts"))), key) ==
            Over(FromPlugin(ob, key), At(Table(es), key))
  {
    hide At, Table, When, JText, ObfsOptions, V2rayOptions;
    var parts := Split(JText(ob, "plugin_opts"), ';');
    hide Split;
    if JText(ob, "plugin") == "obfs-local" || JText(ob, "plugin") == "obfs" {
      PluginTwo(es, "obfs", ObfsOptions(parts), key);
    } else if JText(ob, "plugin") == "v2ray-plugin" {
      PluginTwo(es, "v2ray-plugin", V2rayOptions(parts), key);
    }
  }

  lemma AddressLayer(es: seq<Entry>, items: seq<Value>, key: string)
    ensures At(Table(AddressesIn(es, items)), key) ==
            if key == "ip" && AddressOf(items, false) != "" then Some(Str(AddressOf(items, false)))
            else if key == "ipv6" && AddressOf(items, true) != "" then Some(Str(AddressOf(items, true)))
            else At(Table(es), key)
  {
    hide At, Table, When, TrimSpace, TrimSuffix;
    if items != [] {
      var rest, last := items[..|items| - 1], items[|items| - 1];
      AddressLayer(es, rest, key);
      var before := AddressesIn(es, rest);
      var s := if last.Str? then TrimSpace(last.s) else "";
      SuffixGone();
      PutAt(before, "ipv6", TrimSuffix(s, "/128"), key);
      PutAt(before, "ip", TrimSuffix(s, "/32"), key);
      hide AddressesIn, AddressOf;
      assert AddressesIn(es, items) == if ':' in s then Put(before, "ipv6", TrimSuffix(s, "/128"))
          else if s != "" then Put(before, "ip", TrimSuffix(s, "/32")) else before by { AddressStep(es, items); }
      AddressOfStep(items, false);
      AddressOfStep(items, true);
    }
  }

  lemma AddressStep(es: seq<Entry>, items: seq<Value>)
    requires items != []
    ensures var before, last := AddressesIn(es, items[..|items| - 1]), items[|items| - 1];
            var s := if last.Str? then TrimSpace(last.s) else "";
            AddressesIn(es, items) == if ':' in s then Put(before, "ipv6", TrimSuffix(s, "/128"))
            else if s != "" then Put(before, "ip", TrimSuffix(s, "/32")) else before
  {
  }

  lemma AddressOfStep(items: seq<Value>, six: bool)
    requires items != []
    ensures var now := Address(items[|items| - 1], six);
            AddressOf(items, six) == if now != "" then now else AddressOf(items[..|items| - 1], six)
  {
  }

  lemma SuffixGone()
    ensures TrimSuffix("", "/32") == "" && TrimSuffix("", "/128") == ""
  {
  }

  lemma SeedLayer(typ: string, tag: string, server: string, port: int, key: string)
    ensures At(Table(SeedEntries(typ, tag, server, port)), key) == SeedOf(typ, tag, server, port, key)
  {
    SeedAt(typ, Outbound(tag, server, port, false, Socks("", "")), key);
    hide At, Table, SeedEntries;
  }

  // ---------- kind by kind ----------

  lemma TfoIsOwn(ob: Fields)
    ensures FromTls(Sub(ob, "tls"), "tfo") == None && FromTransport(Sub(ob, "transport"), "tfo") == None
  {
    hide JText, JFlag, AlpnIn, RealityIn, WsOptions, H2Options, Sub;
  }

  lemma SSNode(es: seq<Entry>, ob: Fields, key: string)
    ensures At(Table(NodeEntries(es, "ss", ob)), key) ==
            Over(FromPlugin(ob, key), Over(OwnField("ss", ob, key), At(Table(es), key)))
  {
    hide At, Table, When, Put, JText, JFlag, FromPlugin, WithPlugin;
    var e1 := Put(es, "cipher", JText(ob, "method"));
    var e2 := Put(e1, "password", JText(ob, "password"));
    var e3 := e2 + When(JFlag(ob, "tcp_fast_open"), "tfo", Bool(true));
    PutAt(es, "cipher", JText(ob, "method"), key);
    PutAt(e1, "password", JText(ob, "password"), key);
    LookupWhen(e2, JFlag(ob, "tcp_fast_open"), "tfo", Bool(true), key);
    PluginLayer(e3, ob, key);
  }

  lemma VMessNode(es: seq<Entry>, ob: Fields, key: string)
    ensures At(Table(NodeEntries(es, "vmess", ob)), key) ==
            Over(FromTransport(Sub(ob, "transport"), key), Over(FromTls(Sub(ob, "tls"), key),
            Over(OwnField("vmess", ob, key), At(Table(es), key))))
  {
    TfoIsOwn(ob);
    hide At, Table, When, Put, JText, JFlag, JInt, JMap, Sub, FromTls, FromTransport, WithTls, WithTransport;
    var security := FirstNonEmpty(JText(ob, "security"), "auto");
    var e1 := Put(es, "uuid", JText(ob, "uuid"));
    var e2 := e1 + When(JInt(ob, "alter_id") >= 0, "alterId", Int(JInt(ob, "alter_id")));
    var e3 := Put(e2, "cipher", security);
    var e4 := WithTls(e3, JMap(ob, "tls"));
    var e5 := WithTransport(e4, JMap(ob, "transport"));
    PutAt(es, "uuid", JText(ob, "uuid"), key);
    LookupWhen(e1, JInt(ob, "alter_id") >= 0, "alterId", Int(JInt(ob, "alter_id")), key);
    PutAt(e2, "cipher", security, key);
    TlsLayer(e3, ob, key);
    TransportLayer(e4, ob, key);
    LookupWhen(e5, JFlag(ob, "tcp_fast_open"), "tfo", Bool(true), key);
  }

  lemma VLessNode(es: seq<Entry>, ob: Fields, key: string)
    ensures At(Table(NodeEntries(es, "vless", ob)), key) ==
            Over(FromTransport(Sub(ob, "transport"), key), Over(FromTls(Sub(ob, "tls"), key),
            Over(OwnField("vless", ob, key), At(Table(es), key))))
  {
    TfoIsOwn(ob);
    hide At, Table, When, Put, JText, JFlag, JMap, Sub, FromTls, FromTransport, WithTls, WithTransport;
    var e1 := Put(es, "uuid", JText(ob, "uuid"));
    var e2 := Put(e1, "flow", JText(ob, "flow"));
    var e3 := WithTls(e2, JMap(ob, "tls"));
    var e4 := WithTransport(e3, JMap(ob, "transport"));
    PutAt(es, "uuid", JText(ob, "uuid"), key);
    PutAt(e1, "flow", JText(ob, "flow"), key);
    TlsLayer(e2, ob, key);
    TransportLayer(e3, ob, key);
    LookupWhen(e4, JFlag(ob, "tcp_fast_open"), "tfo", Bool(true), key);
  }

  lemma TrojanNode(es: seq<Entry>, ob: Fields, key: string)
    ensures At(Table(NodeEntries(es, "trojan", ob)), key) ==
            Over(FromTransport(Sub(ob, "transport"), key), Over(FromTls(Sub(ob, "tls"), key),
            Over(OwnField("trojan", ob, key), At(Table(es), key))))
  {
    TfoIsOwn(ob);
    hide At, Table, When, Put, JText, JFlag, JMap, Sub, FromTls, FromTransport, WithTls, WithTransport;
    var e1 := Put(es, "password", JText(ob, "password"));
    var e2 := e1 + When(true, "udp", Bool(true));
    var e3 := WithTls(e2, JMap(ob, "tls"));
    var e4 := WithTransport(e3, JMap(ob, "transport"));
    PutAt(es, "password", JText(ob, "password"), key);
    LookupWhen(e1, true, "udp", Bool(true), key);
    TlsLayer(e2, ob, key);
    TransportLayer(e3, ob, key);
    LookupWhen(e4, JFlag(ob, "tcp_fast_open"), "tfo", Bool(true), key);
  }

  lemma SubText(ob: Fields, key: string, j: string)
    ensures JMap(ob, key).None? ==> JText(Sub(ob, key), j) == ""
    ensures JMap(ob, key).Some? ==> JMap(ob, key).value == Sub(ob, key)
  {
    hide TrimSpace;
  }

  lemma Hysteria2Node(es: seq<Entry>, ob: Fields, key: string)
    ensures At(Table(NodeEntries(es, "hysteria2", ob)), key) ==
            Over(FromTls(Sub(ob, "tls"), key), Over(OwnField("hysteria2", ob, key), At(Table(es), key)))
  {
    var o := Sub(ob, "obfs");
    SubText(ob, "obfs", "type");
    SubText(ob, "obfs", "password");
    hide At, Table, When, Put, JText, JMap, Sub, FromTls, WithTls;
    var e1 := Put(es, "password", JText(ob, "password"));
    var e2 := Put(e1, "obfs", JText(o, "type"));
    var e3 := Put(e2, "obfs-password", JText(o, "password"));
    PutAt(es, "password", JText(ob, "password"), key);
    PutAt(e1, "obfs", JText(o, "type"), key);
    PutAt(e2, "obfs-password", JText(o, "password"), key);
    if JMap(ob, "obfs").Some? {
      TlsLayer(e3, ob, key);
    } else {
      TlsLayer(e1, ob, key);
    }
  }

  lemma HysteriaNode(es: seq<Entry>, ob: Fields, key: string)
    ensures At(Table(NodeEntries(es, "hysteria", ob)), key) ==
            Over(FromTls(Sub(ob, "tls"), key), Over(OwnField("hysteria", ob, key), At(Table(es), key)))
  {
    hide At, Table, When, Put, JText, JInt, JMap, Sub, FromTls, WithTls, Itoa;
    var up, down := JInt(ob, "up_mbps"), JInt(ob, "down_mbps");
    var e1 := Put(es, "auth-str", JText(ob, "auth_str"));
    var e2 := e1 + When(up > 0, "up", Str(Itoa(up)));
    var e3 := e2 + When(down > 0, "down", Str(Itoa(down)));
    var e4 := Put(e3, "obfs", JText(ob, "obfs"));
    PutAt(es, "auth-str", JText(ob, "auth_str"), key);
    LookupWhen(e1, up > 0, "up", Str(Itoa(up)), key);
    LookupWhen(e2, down > 0, "down", Str(Itoa(down)), key);
    PutAt(e3, "obfs", JText(ob, "obfs"), key);
    TlsLayer(e4, ob, key);
  }

  lemma TuicNode(es: seq<Entry>, ob: Fields, key: string)
    ensures At(Table(NodeEntries(es, "tuic", ob)), key) ==
            Over(FromTls(Sub(ob, "tls"), key), Over(OwnField("tuic", ob, key), At(Table(es), key)))
  {
    hide At, Table, When, Put, JText, JMap, Sub, FromTls, WithTls;
    var e1 := Put(es, "uuid", JText(ob, "uuid"));
    var e2 := Put(e1, "password", JText(ob, "password"));
    var e3 := Put(e2, "congestion-controller", JText(ob, "congestion_control"));
    PutAt(es, "uuid", JText(ob, "uuid"), key);
    PutAt(e1, "password", JText(ob, "password"), key);
    PutAt(e2, "congestion-controller", JText(ob, "congestion_control"), key);
    TlsLayer(e3, ob, key);
  }

  lemma AnyTlsNode(es: seq<Entry>, ob: Fields, key: string)
    ensures At(Table(NodeEntries(es, "anytls", ob)), key) ==
            Over(FromTls(Sub(ob, "tls"), key), Over(OwnField("anytls", ob, key), At(Table(es), key)))
  {
    hide At, Table, When, Put, JText, JMap, Sub, FromTls, WithTls;
    PutAt(es, "password", JText(ob, "password"), key);
    TlsLayer(Put(es, "password", JText(ob, "password")), ob, key);
  }

  lemma SocksNode(es: seq<Entry>, ob: Fields, key: string)
    ensures At(Table(NodeEntries(es, "socks5", ob)), key) == Over(OwnField("socks5", ob, key), At(Table(es), key))
  {
    hide At, Table, When, Put, JText;
    PutAt(es, "username", JText(ob, "username"), key);
    PutAt(Put(es, "username", JText(ob, "username")), "password", JText(ob, "password"), key);
  }

  lemma HttpNode(es: seq<Entry>, ob: Fields, key: string)
    ensures At(Table(NodeEntries(es, "http", ob)), key) ==
            Over(FromTls(Sub(ob, "tls"), key), Over(OwnField("http", ob, key), At(Table(es), key)))
  {
    hide At, Table, When, Put, JText, JMap, Sub, FromTls, WithTls;
    var e1 := Put(es, "username", JText(ob, "username"));
    var e2 := Put(e1, "password", JText(ob, "password"));
    PutAt(es, "username", JText(ob, "username"), key);
    PutAt(e1, "password", JText(ob, "password"), key);
    TlsLayer(e2, ob, key);
  }

  lemma WireGuardNode(es: seq<Entry>, ob: Fields, key: string)
    ensures At(Table(NodeEntries(es, "wireguard", ob)), key) == Over(OwnField("wireguard", ob, key), At(Table(es), key))
  {
    hide At, Table, When, Put, JText, JInt, ListAt, IntsOf, AddressOf, AddressesIn;
    var reserved, mtu := ListAt(ob, "reserved"), JInt(ob, "mtu");
    var e1 := Put(es, "private-key", JText(ob, "private_key"));
    var e2 := Put(e1, "public-key", JText(ob, "peer_public_key"));
    var e3 := Put(e2, "pre-shared-key", JText(ob, "pre_shared_key"));
    var e4 := AddressesIn(e3, ListAt(ob, "local_address"));
    var e5 := e4 + When(mtu > 0, "mtu", Int(mtu));
    PutAt(es, "private-key", JText(ob, "private_key"), key);
    PutAt(e1, "public-key", JText(ob, "peer_public_key"), key);
    PutAt(e2, "pre-shared-key", JText(ob, "pre_shared_key"), key);
    AddressLayer(e3, ListAt(ob, "local_address"), key);
    LookupWhen(e4, mtu > 0, "mtu", Int(mtu), key);
    LookupWhen(e5, reserved != [], "reserved", Ints(IntsOf(reserved)), key);
  }

  /** Every key of every node read holds what the object says. */
  lemma EntriesAre(typ: string, es: seq<Entry>, ob: Fields, key: string)
    requires ReadsTls(typ) || typ in {"ss", "socks5", "wireguard"}
    ensures At(Table(NodeEntries(es, typ, ob)), key) == Layers(typ, ob, At(Table(es), key), key)
  {
    hide NodeEntries, OwnField, FromTls, FromTransport, FromPlugin, At, Table, Sub;
    match typ {
      case "ss" => SSNode(es, ob, key);
      case "vmess" => VMessNode(es, ob, key);
      case "vless" => VLessNode(es, ob, key);
      case "trojan" => TrojanNode(es, ob, key);
      case "hysteria2" => Hysteria2Node(es, ob, key);
      case "hysteria" => HysteriaNode(es, ob, key);
      case "tuic" => TuicNode(es, ob, key);
      case "anytls" => AnyTlsNode(es, ob, key);
      case "http" => HttpNode(es, ob, key);
      case "socks5" => SocksNode(es, ob, key);
      case _ => WireGuardNode(es, ob, key);
    }
  }

  lemma TypesAre(typ: string)
    requires ClashType(typ) != ""
    ensures ReadsTls(ClashType(typ)) || ClashType(typ) in {"ss", "socks5", "wireguard"}
  {
  }

  /** The Clash type an outbound type stands for, by name. */
  function TypeMeant(typ: string): string
  {
    match typ
    case "shadowsocks" => "ss"
    case "hy2" => "hysteria2"
    case "socks" => "socks5"
    case _ =>
      if typ in {"ss", "vmess", "vless", "trojan", "hysteria2", "hysteria", "tuic", "anytls", "socks5", "http",
                 "wireguard"} then typ else ""
  }

  /**
    Which objects give a node, and what each key of that node holds: name, server and port must be there except for
    wireguard, and the type must be one the reader knows.
   */
  lemma NodeFields(ob: Fields, key: string)
    ensures var typ := ToLower(JText(ob, "type"));
            var tag, server, port := JText(ob, "tag"), JText(ob, "server"), JInt(ob, "server_port");
            && (OutboundRead(ob).Some? <==>
                TypeMeant(typ) != "" && (typ == "wireguard" || (tag != "" && server != "" && port != 0)))
            && (OutboundRead(ob).Some? ==>
                var n := OutboundRead(ob).value;
                && n.name == tag && n.typ == TypeMeant(typ) && n.server == server && n.port == port
                && At(n.clash, key) == NodeField(TypeMeant(typ), tag, server, port, ob, key))
  {
    var typ := ToLower(JText(ob, "type"));
    var tag, server, port := JText(ob, "tag"), JText(ob, "server"), JInt(ob, "server_port");
    hide ToLower, JText, JInt, NodeEntries, OwnField, FromTls, FromTransport, FromPlugin, At, Table, Sub, SeedOf,
        SeedEntries;
    MeantIs(typ);
    if ClashType(typ) != "" {
      TypesAre(typ);
      SeedLayer(ClashType(typ), tag, server, port, key);
      EntriesAre(ClashType(typ), SeedEntries(ClashType(typ), tag, server, port), ob, key);
    }
    hide ClashType, TypeMeant;
  }

  lemma MeantIs(typ: string)
    ensures ClashType(typ) == TypeMeant(typ)
  {
  }

  // ---------- nested options ----------

  function WsField(tr: Fields, key: string): Option<Value>
  {
    var host := JText(Sub(tr, "headers"), "Host");
    match key
    case "path" => Some1(JText(tr, "path"))
    case "headers" => if host != "" then Some(Map(map["Host" := Str(host)])) else None
    case _ => None
  }

  function H2Field(tr: Fields, key: string): Option<Value>
  {
    match key
    case "path" => Some1(JText(tr, "path"))
    case "host" => if ListAt(tr, "host") != [] then Some(Strs(OnlyStrings(ListAt(tr, "host")))) else None
    case _ => None
  }

  /** The options of reality, WebSocket and HTTP transports, key by key. */
  lemma NestedFields(t: Fields, key: string)
    ensures At(RealityIn(t), key) == RealityText(t, key)
    ensures At(WsOptions(t), key) == WsField(t, key) && At(H2Options(t), key) == H2Field(t, key)
  {
    RealityKeys(t, key);
    WsKeys(t, key);
    H2Keys(t, key);
    hide *;
  }

  lemma RealityKeys(t: Fields, key: string)
    ensures At(RealityIn(t), key) == RealityText(t, key)
  {
    SubText(t, "reality", "public_key");
    SubText(t, "reality", "short_id");
    hide Table, JText, JMap, Sub, When;
    var r := Sub(t, "reality");
    var first := [] + When(JText(r, "public_key") != "", "public-key", Str(JText(r, "public_key")));
    LookupNone(key);
    LookupWhen([], JText(r, "public_key") != "", "public-key", Str(JText(r, "public_key")), key);
    LookupWhen(first, JText(r, "short_id") != "", "short-id", Str(JText(r, "short_id")), key);
  }

  lemma WsKeys(t: Fields, key: string)
    ensures At(WsOptions(t), key) == WsField(t, key)
  {
    SubText(t, "headers", "Host");
    var path, host := JText(t, "path"), JText(Sub(t, "headers"), "Host");
    Single("Host", host);
    hide Table, JText, JMap, Sub, When, At;
    var first := [] + When(path != "", "path", Str(path));
    LookupNone(key);
    LookupWhen([], path != "", "path", Str(path), key);
    LookupWhen(first, host != "", "headers", Map(map["Host" := Str(host)]), key);
  }

  lemma H2Keys(t: Fields, key: string)
    ensures At(H2Options(t), key) == H2Field(t, key)
  {
    var path, hosts := JText(t, "path"), ListAt(t, "host");
    assert hosts == if "host" in t && t["host"].List? then t["host"].items else [];
    hide Table, JText, When, At, OnlyStrings, ListAt;
    var first := [] + When(path != "", "path", Str(path));
    LookupNone(key);
    LookupWhen([], path != "", "path", Str(path), key);
    LookupWhen(first, hosts != [], "host", Strs(OnlyStrings(hosts)), key);
  }
}
