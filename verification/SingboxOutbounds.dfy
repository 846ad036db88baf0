/** One outbound: internal/generator/singbox.go prints it, internal/parser/singbox.go reads it. */
module SingboxOutbounds {
  import opened Wrappers
  import opened Text
  import opened Decimal
  import opened Values
  import opened Accessors
  import opened LinkText
  import opened JsonTrees

  // ---------- what an outbound says ----------

  datatype Reality = Reality(key: string, shortId: string)

  datatype Tls = NoTls | Tls(sni: string, insecure: bool, alpn: seq<string>, fingerprint: string,
                             reality: Option<Reality>)

  datatype Transport = Plain | Ws(path: string, host: string) | Grpc(service: string) | H2(path: string, host: string)

  datatype Plugin = NoPlugin | Obfs(mode: string, host: string) | V2ray(mode: string, tls: bool, host: string,
                                    path: string)

  datatype Kind =
    | SS(cipher: string, password: string, plugin: Plugin)
    | VMess(uuid: string, alterId: int, security: string, transport: Transport, tls: Tls)
    | VLess(uuid: string, flow: string, transport: Transport, tls: Tls)
    | Trojan(password: string, transport: Transport, tls: Tls)
    | Hysteria2(password: string, obfs: string, obfsPassword: string, tls: Tls)
    | Tuic(uuid: string, password: string, congestion: string, tls: Tls)
    | Socks(username: string, password: string)
    | Http(username: string, password: string, tls: Tls)
    | WireGuard(privateKey: string, publicKey: string, sharedKey: string, ip: string, ipv6: string, mtu: int,
        reserved: seq<int>)
    | Hysteria(auth: string, up: int, down: int, obfs: string, tls: Tls)

  datatype Outbound = Outbound(tag: string, server: string, port: int, tfo: bool, kind: Kind)

  // -- read off a node --

  function OnlyStrings(items: seq<Value>): seq<string>
  {
    if items == [] then [] else
    var last := items[|items| - 1];
    OnlyStrings(items[..|items| - 1]) + if last.Str? then [last.s] else []
  }

  function SplitAny(v: Option<Value>): seq<string>
  {
    if v.None? then [] else
    match v.value
    case Str(s) => if s == "" then [] else [s]
    case Strs(ss) => ss
    case List(items) => OnlyStrings(items)
    case _ => []
  }

  function JoinAny(v: Option<Value>): string
  {
    if v.None? then "" else
    match v.value
    case Str(s) => s
    case Strs(ss) => Join(ss, ",")
    case List(items) => Join(OnlyStrings(items), ",")
    case _ => ""
  }

  function TlsOf(c: Fields, always: bool): Tls
  {
    var ro := CMap(c, "reality-opts");
    if !always && !CB(c, "tls") && ro == map[] then NoTls
    else Tls(GetSNI(c), CB(c, "skip-cert-verify"), SplitAny(At(c, "alpn")), CS(c, "client-fingerprint"),
             if ro == map[] then None else Some(Reality(CS(ro, "public-key"), CS(ro, "short-id"))))
  }

  function TransportOf(c: Fields): Transport
  {
    var network := CS(c, "network");
    if network == "ws" then Ws(CS(CMap(c, "ws-opts"), "path"), CS(CMap(CMap(c, "ws-opts"), "headers"), "Host"))
    else if network == "grpc" then Grpc(CS(CMap(c, "grpc-opts"), "grpc-service-name"))
    else if network == "h2" then H2(CS(CMap(c, "h2-opts"), "path"), JoinAny(At(CMap(c, "h2-opts"), "host")))
    else Plain
  }

  function PluginOf(c: Fields): Plugin
  {
    var plugin, o := CS(c, "plugin"), CMap(c, "plugin-opts");
    if plugin == "obfs" then Obfs(CS(o, "mode"), CS(o, "host"))
    else if plugin == "v2ray-plugin" then V2ray(FirstNonEmpty(CS(o, "mode"), "websocket"), CB(o, "tls"), CS(o, "host"),
        CS(o, "path"))
    else NoPlugin
  }

  /** parseReserved. */
  function ReservedOf(v: Option<Value>): seq<int>
  {
    if v.None? then [] else
    match v.value
    case Ints(ns) => ns
    case List(items) => IntsIn(items)
    case Str(s) => IntsOfTexts(Split(s, ','))
    case _ => []
  }

  function IntsIn(items: seq<Value>): seq<int>
  {
    if items == [] then [] else
    var last := items[|items| - 1];
    IntsIn(items[..|items| - 1]) +
      (match last
       case Int(n) => [n]
       case Float(x) => [Truncate(x)]
       case Str(s) => if Atoi(TrimSpace(s)).ok then [Atoi(TrimSpace(s)).value] else []
       case _ => [])
  }

  function IntsOfTexts(texts: seq<string>): seq<int>
  {
    if texts == [] then [] else
    var n := Atoi(TrimSpace(texts[|texts| - 1]));
    IntsOfTexts(texts[..|texts| - 1]) + if n.ok then [n.value] else []
  }

  /** An address with its prefix length, "" for none. */
  function WithPrefix(ip: string, suffix: string): string
  {
    if ip == "" then "" else if '/' in ip then ip else ip + suffix
  }

  function Positive(n: int): int { if n > 0 then n else 0 }

  function KindOf(typ: string, c: Fields): Option<Kind>
  {
    if typ == "ss" then Some(SS(CS(c, "cipher"), CS(c, "password"), PluginOf(c)))
    else if typ == "vmess" then
      Some(VMess(CS(c, "uuid"), CI(c, "alterId"), FirstNonEmpty(CS(c, "cipher"), "auto"),
                 TransportOf(c), TlsOf(c, false)))
    else if typ == "vless" then Some(VLess(CS(c, "uuid"), CS(c, "flow"), TransportOf(c), TlsOf(c, false)))
    else if typ == "trojan" then Some(Trojan(CS(c, "password"), TransportOf(c), TlsOf(c, true)))
    else if typ == "hysteria2" then
      Some(Hysteria2(CS(c, "password"), CS(c, "obfs"),
                     if CS(c, "obfs") != "" then CS(c, "obfs-password") else "", TlsOf(c, true)))
    else if typ == "tuic" then
      Some(Tuic(CS(c, "uuid"), CS(c, "password"), CS(c, "congestion-controller"), TlsOf(c, true)))
    else if typ == "socks5" || typ == "socks" then Some(Socks(CS(c, "username"), CS(c, "password")))
    else if typ == "http" then Some(Http(CS(c, "username"), CS(c, "password"), TlsOf(c, false)))
    else if typ == "wireguard" then
      Some(WireGuard(CS(c, "private-key"), CS(c, "public-key"), CS(c, "pre-shared-key"), WithPrefix(CS(c, "ip"), "/32"),
                     WithPrefix(CS(c, "ipv6"), "/128"), Positive(CI(c, "mtu")), ReservedOf(At(c, "reserved"))))
    else if typ == "hysteria" then
      Some(Hysteria(CS(c, "auth-str"), Positive(CI(c, "up")), Positive(CI(c, "down")), CS(c, "obfs"), TlsOf(c, true)))
    else None
  }

  predicate PrintsTfo(typ: string) { typ in {"ss", "vmess", "vless", "trojan", "socks5", "socks"} }

  function OutboundOf(n: Node): Option<Outbound>
  {
    var c := n.clash;
    var kind := KindOf(n.typ, c);
    if kind.None? then None
    else Some(Outbound(n.name, CS(c, "server"), CI(c, "port"), CB(c, "tfo") && PrintsTfo(n.typ), kind.value))
  }

  // -- as a JSON object --

  function RealityTable(r: Reality): Fields
  {
    Table([] + When(true, "enabled", Bool(true)) + When(r.key != "", "public_key", Str(r.key))
        + When(r.shortId != "", "short_id", Str(r.shortId)))
  }

  function TlsEntries(t: Tls): seq<Entry>
    requires t.Tls?
  {
    [] + When(true, "enabled", Bool(true))
      + When(t.sni != "", "server_name", Str(t.sni))
      + When(t.insecure, "insecure", Bool(true))
      + When(t.alpn != [], "alpn", Strs(t.alpn))
      + When(t.fingerprint != "", "utls", Map(Table([] + When(true, "enabled", Bool(true))
                                                       + When(true, "fingerprint", Str(t.fingerprint)))))
      + When(t.reality.Some?, "reality",
             Map(RealityTable(if t.reality.Some? then t.reality.value else Reality("", ""))))
  }

  function TransportEntries(t: Transport): seq<Entry>
  {
    match t
    case Plain => []
    case Ws(path, host) =>
      [] + When(true, "type", Str("ws")) + When(path != "", "path", Str(path))
        + When(host != "", "headers", Map(Table([] + When(true, "Host", Str(host)))))
    case Grpc(service) => [] + When(true, "type", Str("grpc")) + When(true, "service_name", Str(service))
    case H2(path, host) =>
      [] + When(true, "type", Str("http")) + When(path != "", "path", Str(path))
          + When(host != "", "host", Strs([host]))
  }

  function PluginText(p: Plugin): string
  {
    match p
    case NoPlugin => ""
    case Obfs(mode, host) => Join(["obfs=" + mode] + (if host != "" then ["obfs-host=" + host] else []), ";")
    case V2ray(mode, tls, host, path) =>
      Join(["mode=" + mode] + (if tls then ["tls"] else []) + (if host != "" then ["host=" + host] else [])
           + (if path != "" then ["path=" + path] else []), ";")
  }

  function Front(o: Outbound): seq<Entry>
  {
    [] + When(true, "tag", Str(o.tag)) + When(true, "server", Str(o.server)) + When(true, "server_port", Int(o.port))
      + When(o.tfo, "tcp_fast_open", Bool(true))
  }

  function TlsPart(es: seq<Entry>, t: Tls): seq<Entry>
  {
    es + When(t.Tls?, "tls", Map(if t.Tls? then Table(TlsEntries(t)) else map[]))
  }

  function TransportPart(es: seq<Entry>, t: Transport): seq<Entry>
  {
    es + When(!t.Plain?, "transport", Map(Table(TransportEntries(t))))
  }

  function Addresses(ip: string, ipv6: string): seq<string>
  {
    (if ip != "" then [ip] else []) + if ipv6 != "" then [ipv6] else []
  }

  function KindEntries(es: seq<Entry>, k: Kind): seq<Entry>
  {
    match k
    case SS(cipher, password, plugin) =>
      es + When(true, "type", Str("shadowsocks")) + When(true, "method", Str(cipher))
        + When(true, "password", Str(password))
        + When(!plugin.NoPlugin?, "plugin", Str(if plugin.Obfs? then "obfs-local" else "v2ray-plugin"))
        + When(!plugin.NoPlugin?, "plugin_opts", Str(PluginText(plugin)))
    case VMess(uuid, alterId, security, transport, tls) =>
      TlsPart(TransportPart(es + When(true, "type", Str("vmess")) + When(true, "uuid", Str(uuid))
                              + When(true, "alter_id", Int(alterId))
                              + When(true, "security", Str(security)), transport), tls)
    case VLess(uuid, flow, transport, tls) =>
      TlsPart(TransportPart(es + When(true, "type", Str("vless")) + When(true, "uuid", Str(uuid))
          + When(flow != "", "flow", Str(flow)), transport), tls)
    case Trojan(password, transport, tls) =>
      TlsPart(TransportPart(es + When(true, "type", Str("trojan")) + When(true, "password", Str(password)), transport),
          tls)
    case Hysteria2(password, obfs, obfsPassword, tls) =>
      TlsPart(es + When(true, "type", Str("hysteria2")) + When(true, "password", Str(password))
                + When(obfs != "", "obfs", Map(Table([] + When(true, "type", Str(obfs))
                                                       + When(true, "password", Str(obfsPassword))))), tls)
    case Tuic(uuid, password, congestion, tls) =>
      TlsPart(es + When(true, "type", Str("tuic")) + When(true, "uuid", Str(uuid))
                + When(true, "password", Str(password))
                + When(congestion != "", "congestion_control", Str(congestion)), tls)
    case Socks(username, password) =>
      es + When(true, "type", Str("socks")) + When(true, "version", Str("5"))
        + When(username != "", "username", Str(username)) + When(password != "", "password", Str(password))
    case Http(username, password, tls) =>
      TlsPart(es + When(true, "type", Str("http")) + When(username != "", "username", Str(username))
          + When(password != "", "password", Str(password)), tls)
    case WireGuard(privateKey, publicKey, sharedKey, ip, ipv6, mtu, reserved) =>
      es + When(true, "type", Str("wireguard")) + When(true, "private_key", Str(privateKey))
        + When(true, "peer_public_key", Str(publicKey))
        + When(sharedKey != "", "pre_shared_key", Str(sharedKey))
        + When(ip != "" || ipv6 != "", "local_address", Strs(Addresses(ip, ipv6)))
        + When(mtu > 0, "mtu", Int(mtu)) + When(reserved != [], "reserved", Ints(reserved))
    case Hysteria(auth, up, down, obfs, tls) =>
      TlsPart(es + When(true, "type", Str("hysteria")) + When(auth != "", "auth_str", Str(auth))
                + When(up > 0, "up_mbps", Int(up))
                + When(down > 0, "down_mbps", Int(down)) + When(obfs != "", "obfs", Str(obfs)), tls)
  }

  /** The JSON object of an outbound. */
  function Json(o: Outbound): Fields { Table(KindEntries(Front(o), o.kind)) }

  // ---------- reading ----------

  function Put(es: seq<Entry>, key: string, s: string): seq<Entry> { es + When(s != "", key, Str(s)) }

  function SeedEntries(typ: string, tag: string, server: string, port: int): seq<Entry>
  {
    [] + When(true, "name", Str(tag)) + When(true, "type", Str(typ)) + When(true, "server", Str(server))
        + When(true, "port", Int(port))
  }

  function NonEmptyStrings(items: seq<Value>): seq<string>
  {
    if items == [] then [] else
    var last := items[|items| - 1];
    NonEmptyStrings(items[..|items| - 1]) + if last.Str? && last.s != "" then [last.s] else []
  }

  function AlpnIn(tls: Fields): seq<string>
  {
    if "alpn" in tls && tls["alpn"].List? then NonEmptyStrings(tls["alpn"].items) else []
  }

  function RealityIn(tls: Fields): Fields
  {
    var r := JMap(tls, "reality");
    if r.None? then map[]
    else Table([] + When(JText(r.value, "public_key") != "", "public-key", Str(JText(r.value, "public_key")))
                  + When(JText(r.value, "short_id") != "", "short-id", Str(JText(r.value, "short_id"))))
  }

  function FingerprintIn(tls: Fields): string
  {
    var u := JMap(tls, "utls");
    if u.None? then "" else JText(u.value, "fingerprint")
  }

  predicate TlsOn(tls: Fields)
  {
    JFlag(tls, "enabled") || JText(tls, "server_name") != ""
        || (JMap(tls, "reality").Some? && JMap(tls, "reality").value != map[])
  }

  /** extractSingboxTLS. */
  function WithTls(es: seq<Entry>, tls: Option<Fields>): seq<Entry>
  {
    if tls.None? then es
    else
      var t := tls.value;
      es + When(TlsOn(t), "tls", Bool(true)) + When(JText(t, "server_name") != "", "sni", Str(JText(t, "server_name")))
        + When(JFlag(t, "insecure"), "skip-cert-verify", Bool(true)) + When(AlpnIn(t) != [], "alpn", Strs(AlpnIn(t)))
        + When(FingerprintIn(t) != "", "client-fingerprint", Str(FingerprintIn(t)))
        + When(RealityIn(t) != map[], "reality-opts", Map(RealityIn(t)))
  }

  function WsOptions(tr: Fields): Fields
  {
    var h := JMap(tr, "headers");
    var host := if h.Some? then JText(h.value, "Host") else "";
    Table([] + When(JText(tr, "path") != "", "path", Str(JText(tr, "path")))
        + When(host != "", "headers", Map(Table([] + When(true, "Host", Str(host))))))
  }

  function H2Options(tr: Fields): Fields
  {
    var hosts := if "host" in tr && tr["host"].List? then tr["host"].items else [];
    Table([] + When(JText(tr, "path") != "", "path", Str(JText(tr, "path")))
        + When(hosts != [], "host", Strs(OnlyStrings(hosts))))
  }

  /** extractSingboxTransport. */
  function WithTransport(es: seq<Entry>, tr: Option<Fields>): seq<Entry>
  {
    if tr.None? then es
    else
      var t, typ := tr.value, JText(tr.value, "type");
      if typ == "ws" then es + When(true, "network", Str("ws")) + When(true, "ws-opts", Map(WsOptions(t)))
      else if typ == "grpc" then
        es + When(true, "network", Str("grpc")) + When(true, "grpc-opts",
            Map(Table([] + When(true, "grpc-service-name", Str(JText(t, "service_name"))))))
      else if typ == "http" then es + When(true, "network", Str("h2")) + When(true, "h2-opts", Map(H2Options(t)))
      else es
  }

  function ObfsOptions(parts: seq<string>): Fields
  {
    if parts == [] then map[] else
    var before := ObfsOptions(parts[..|parts| - 1]);
    var cut := Cut(parts[|parts| - 1], '=');
    var k, v := TrimSpace(cut.before), TrimSpace(cut.after);
    if cut.found && k == "obfs" then before["mode" := Str(v)]
    else if cut.found && k == "obfs-host" then before["host" := Str(v)]
    else before
  }

  function V2rayOptions(parts: seq<string>): Fields
  {
    if parts == [] then map[] else
    var before := V2rayOptions(parts[..|parts| - 1]);
    var part := TrimSpace(parts[|parts| - 1]);
    var cut := Cut(part, '=');
    if part == "tls" then before["tls" := Bool(true)]
    else if cut.found then before[TrimSpace(cut.before) := Str(TrimSpace(cut.after))]
    else before
  }

  function WithPlugin(es: seq<Entry>, plugin: string, options: string): seq<Entry>
  {
    var parts := Split(options, ';');
    if plugin == "obfs-local" || plugin == "obfs" then
      es + When(true, "plugin", Str("obfs")) + When(true, "plugin-opts", Map(ObfsOptions(parts)))
    else if plugin == "v2ray-plugin" then
      es + When(true, "plugin", Str("v2ray-plugin")) + When(true, "plugin-opts", Map(V2rayOptions(parts)))
    else es
  }

  function TrimSuffix(s: string, suffix: string): string { if HasSuffix(s, suffix) then s[..|s| - |suffix|] else s }

  /** The last address of each family, as the loop over local_address leaves them. */
  function AddressesIn(es: seq<Entry>, items: seq<Value>): seq<Entry>
  {
    if items == [] then es else
    var before := AddressesIn(es, items[..|items| - 1]);
    var last := items[|items| - 1];
    var s := if last.Str? then TrimSpace(last.s) else "";
    if ':' in s then Put(before, "ipv6", TrimSuffix(s, "/128"))
    else if s != "" then Put(before, "ip", TrimSuffix(s, "/32"))
    else before
  }

  function IntsOf(items: seq<Value>): (r: seq<int>)
    ensures |r| == |items|
  {
    seq(|items|, i requires 0 <= i < |items| => ToInt(items[i]))
  }

  function ListAt(m: Fields, k: string): seq<Value> { if k in m && m[k].List? then m[k].items else [] }

  /** The Clash type for an outbound type, "" for one this reader does not know. */
  function ClashType(typ: string): string
  {
    if typ == "shadowsocks" || typ == "ss" then "ss"
    else if typ == "hysteria2" || typ == "hy2" then "hysteria2"
    else if typ == "socks" || typ == "socks5" then "socks5"
    else if typ in {"vmess", "vless", "trojan", "hysteria", "tuic", "anytls", "http", "wireguard"} then typ
    else ""
  }

  function NodeEntries(es: seq<Entry>, typ: string, ob: Fields): seq<Entry>
  {
    if typ == "ss" then
      WithPlugin(Put(Put(es, "cipher", JText(ob, "method")), "password", JText(ob, "password"))
          + When(JFlag(ob, "tcp_fast_open"), "tfo", Bool(true)),
                 JText(ob, "plugin"), JText(ob, "plugin_opts"))
    else if typ == "vmess" then
      WithTransport(WithTls(Put(Put(es, "uuid", JText(ob, "uuid"))
          + When(JInt(ob, "alter_id") >= 0, "alterId", Int(JInt(ob, "alter_id"))),
                                "cipher", FirstNonEmpty(JText(ob, "security"), "auto")), JMap(ob, "tls")),
                                    JMap(ob, "transport"))
        + When(JFlag(ob, "tcp_fast_open"), "tfo", Bool(true))
    else if typ == "vless" then
      WithTransport(WithTls(Put(Put(es, "uuid", JText(ob, "uuid")), "flow", JText(ob, "flow")), JMap(ob, "tls")),
          JMap(ob, "transport"))
        + When(JFlag(ob, "tcp_fast_open"), "tfo", Bool(true))
    else if typ == "trojan" then
      WithTransport(WithTls(Put(es, "password", JText(ob, "password"))
                              + When(true, "udp", Bool(true)), JMap(ob, "tls")), JMap(ob, "transport"))
        + When(JFlag(ob, "tcp_fast_open"), "tfo", Bool(true))
    else if typ == "hysteria2" then
      var o := JMap(ob, "obfs");
      var e1 := Put(es, "password", JText(ob, "password"));
      WithTls(if o.Some? then Put(Put(e1, "obfs", JText(o.value, "type")), "obfs-password", JText(o.value, "password"))
          else e1, JMap(ob, "tls"))
    else if typ == "hysteria" then
      WithTls(Put(Put(es, "auth-str", JText(ob, "auth_str"))
                    + When(JInt(ob, "up_mbps") > 0, "up", Str(Itoa(JInt(ob, "up_mbps"))))
                    + When(JInt(ob, "down_mbps") > 0, "down", Str(Itoa(JInt(ob, "down_mbps")))), "obfs",
                        JText(ob, "obfs")), JMap(ob, "tls"))
    else if typ == "tuic" then
      WithTls(Put(Put(Put(es, "uuid", JText(ob, "uuid")), "password", JText(ob, "password")), "congestion-controller",
          JText(ob, "congestion_control")),
              JMap(ob, "tls"))
    else if typ == "anytls" then WithTls(Put(es, "password", JText(ob, "password")), JMap(ob, "tls"))
    else if typ == "socks5" then Put(Put(es, "username", JText(ob, "username")), "password", JText(ob, "password"))
    else if typ == "http" then
      WithTls(Put(Put(es, "username", JText(ob, "username")), "password", JText(ob, "password")), JMap(ob, "tls"))
    else
      var reserved := ListAt(ob, "reserved");
      AddressesIn(Put(Put(Put(es, "private-key", JText(ob, "private_key")), "public-key", JText(ob, "peer_public_key")),
                      "pre-shared-key", JText(ob, "pre_shared_key")), ListAt(ob, "local_address"))
        + When(JInt(ob, "mtu") > 0, "mtu", Int(JInt(ob, "mtu")))
        + When(reserved != [], "reserved", Ints(IntsOf(reserved)))
  }

  /** parseSingboxOutbound. */
  function NodeRead(typ: string, tag: string, server: string, port: int, ob: Fields): Option<Node>
  {
    var t := ClashType(typ);
    if (tag == "" || server == "" || port == 0) && typ != "wireguard" then None
    else if t == "" then None
    else Some(Node(tag, t, server, port, Table(NodeEntries(SeedEntries(t, tag, server, port), t, ob))))
  }

  /** One element of the outbounds list. */
  function OutboundRead(ob: Fields): Option<Node>
  {
    NodeRead(ToLower(JText(ob, "type")), JText(ob, "tag"), JText(ob, "server"), JInt(ob, "server_port"), ob)
  }

  // ---------- reading back what was printed ----------

  // -- well-formed outbounds --

  predicate TlsFits(t: Tls)
  {
    t.Tls? ==>
      && Trimmed(t.sni) && Trimmed(t.fingerprint) && (forall i :: 0 <= i < |t.alpn| ==> t.alpn[i] != "")
      && (t.reality.Some? ==> var r := t.reality.value; Trimmed(r.key) && Trimmed(r.shortId))
  }

  /** A reality object that holds neither a key nor a short id. */
  predicate IsBlank(t: Tls) { t.Tls? && t.reality == Some(Reality("", "")) }

  /** What the reader keeps: a blank reality object is lost. */
  function KeptTls(t: Tls): Tls { if IsBlank(t) then t.(reality := None) else t }

  predicate TransportFits(t: Transport)
  {
    match t
    case Plain => true
    case Ws(path, host) => Trimmed(path) && Trimmed(host)
    case Grpc(service) => Trimmed(service)
    case H2(path, host) => Trimmed(path)
  }

  // -- the TLS object --

  lemma RealityAt(r: Reality, j: string)
    ensures At(RealityTable(r), j) ==
            if r.shortId != "" && j == "short_id" then Some(Str(r.shortId))
            else if r.key != "" && j == "public_key" then Some(Str(r.key))
            else if j == "enabled" then Some(Bool(true))
            else None
  {
    hide At, Table, When;
    LookupNone(j);
    var e1 := [] + When(true, "enabled", Bool(true));
    var e2 := e1 + When(r.key != "", "public_key", Str(r.key));
    LookupWhen([], true, "enabled", Bool(true), j);
    LookupWhen(e1, r.key != "", "public_key", Str(r.key), j);
    LookupWhen(e2, r.shortId != "", "short_id", Str(r.shortId), j);
  }

  function UtlsTable(fingerprint: string): Fields
  {
    Table([] + When(true, "enabled", Bool(true)) + When(true, "fingerprint", Str(fingerprint)))
  }

  lemma UtlsAt(fingerprint: string, j: string)
    ensures At(UtlsTable(fingerprint), j) == if j == "fingerprint" then Some(Str(fingerprint))
            else if j == "enabled" then Some(Bool(true)) else None
  {
    hide At, Table, When;
    LookupNone(j);
    LookupWhen([], true, "enabled", Bool(true), j);
    LookupWhen([] + When(true, "enabled", Bool(true)), true, "fingerprint", Str(fingerprint), j);
  }

  lemma TlsAt(t: Tls, j: string)
    requires t.Tls?
    ensures At(Table(TlsEntries(t)), j) ==
            if t.reality.Some? && j == "reality" then Some(Map(RealityTable(t.reality.value)))
            else if t.fingerprint != "" && j == "utls" then Some(Map(UtlsTable(t.fingerprint)))
            else if t.alpn != [] && j == "alpn" then Some(Strs(t.alpn))
            else if t.insecure && j == "insecure" then Some(Bool(true))
            else if t.sni != "" && j == "server_name" then Some(Str(t.sni))
            else if j == "enabled" then Some(Bool(true))
            else None
  {
    hide At, Table, When;
    LookupNone(j);
    var r := if t.reality.Some? then t.reality.value else Reality("", "");
    var e1 := [] + When(true, "enabled", Bool(true));
    var e2 := e1 + When(t.sni != "", "server_name", Str(t.sni));
    var e3 := e2 + When(t.insecure, "insecure", Bool(true));
    var e4 := e3 + When(t.alpn != [], "alpn", Strs(t.alpn));
    var e5 := e4 + When(t.fingerprint != "", "utls", Map(UtlsTable(t.fingerprint)));
    LookupWhen([], true, "enabled", Bool(true), j);
    LookupWhen(e1, t.sni != "", "server_name", Str(t.sni), j);
    LookupWhen(e2, t.insecure, "insecure", Bool(true), j);
    LookupWhen(e3, t.alpn != [], "alpn", Strs(t.alpn), j);
    LookupWhen(e4, t.fingerprint != "", "utls", Map(UtlsTable(t.fingerprint)), j);
    LookupWhen(e5, t.reality.Some?, "reality", Map(RealityTable(r)), j);
  }

  function StrItems(ss: seq<string>): (r: seq<Value>)
    ensures |r| == |ss|
  {
    seq(|ss|, i requires 0 <= i < |ss| => Str(ss[i]))
  }

  lemma DecodedStrs(ss: seq<string>)
    ensures Decoded(Strs(ss)) == List(StrItems(ss))
  {
  }

  lemma {:induction false} StringsBack(ss: seq<string>)
    ensures OnlyStrings(StrItems(ss)) == ss
    ensures (forall i :: 0 <= i < |ss| ==> ss[i] != "") ==> NonEmptyStrings(StrItems(ss)) == ss
  {
    if ss != [] {
      var n := |ss| - 1;
      StringsBack(ss[..n]);
      assert StrItems(ss)[..n] == StrItems(ss[..n]);
      assert ss[..n] + [ss[n]] == ss;
    }
  }

  /** The parser's view of a printed TLS object. */
  lemma TlsViewed(t: Tls)
    requires t.Tls? && TlsFits(t)
    ensures var d := DecodedFields(Table(TlsEntries(t)));
            TlsOn(d) && JText(d, "server_name") == t.sni && JFlag(d, "insecure") == t.insecure && AlpnIn(d) == t.alpn
  {
    var m := Table(TlsEntries(t));
    TlsAt(t, "enabled");
    TlsAt(t, "server_name");
    TlsAt(t, "insecure");
    hide TlsEntries, Table, Trimmed, TrimSpace;
    JReads(m, "enabled");
    JReads(m, "server_name");
    JReads(m, "insecure");
    TrimmedIsFixed(t.sni);
    AlpnViewed(t);
    hide JText, JFlag, AlpnIn, DecodedFields, At;
  }

  lemma AlpnViewed(t: Tls)
    requires t.Tls? && TlsFits(t)
    ensures AlpnIn(DecodedFields(Table(TlsEntries(t)))) == t.alpn
  {
    var m := Table(TlsEntries(t));
    TlsAt(t, "alpn");
    hide TlsEntries, Table, Trimmed;
    LookupDecoded(m, "alpn");
    DecodedStrs(t.alpn);
    StringsBack(t.alpn);
    hide DecodedFields, Decoded;
  }

  lemma FingerprintViewed(t: Tls)
    requires t.Tls? && TlsFits(t)
    ensures FingerprintIn(DecodedFields(Table(TlsEntries(t)))) == t.fingerprint
  {
    var m := Table(TlsEntries(t));
    TlsAt(t, "utls");
    hide TlsEntries, Table, Trimmed, TrimSpace;
    JReads(m, "utls");
    UtlsAt(t.fingerprint, "fingerprint");
    hide UtlsTable;
    JReads(UtlsTable(t.fingerprint), "fingerprint");
    TrimmedIsFixed(t.fingerprint);
    hide JText, JMap, DecodedFields, At;
  }

  function RealityNode(r: Reality): Fields
  {
    Table([] + When(r.key != "", "public-key", Str(r.key)) + When(r.shortId != "", "short-id", Str(r.shortId)))
  }

  lemma RealityViewed(t: Tls)
    requires t.Tls? && TlsFits(t)
    ensures RealityIn(DecodedFields(Table(TlsEntries(t)))) ==
            if t.reality.Some? then RealityNode(t.reality.value) else map[]
  {
    var m := Table(TlsEntries(t));
    TlsAt(t, "reality");
    JReads(m, "reality");
    hide TlsEntries, Table, Trimmed, TrimSpace, When, JText, JMap, DecodedFields, RealityTable;
    hide At, RealityNode, RealityIn;
    if t.reality.Some? {
      RealityRead(t.reality.value);
      RealityMade(DecodedFields(m), DecodedFields(RealityTable(t.reality.value)), t.reality.value);
    } else {
      RealityMissing(DecodedFields(m));
    }
  }

  lemma RealityMade(d: Fields, sub: Fields, r: Reality)
    requires JMap(d, "reality") == Some(sub) && JText(sub, "public_key") == r.key && JText(sub, "short_id") == r.shortId
    ensures RealityIn(d) == RealityNode(r)
  {
    hide JMap, JText, Table, When;
  }

  lemma RealityMissing(d: Fields)
    requires JMap(d, "reality") == None
    ensures RealityIn(d) == map[]
  {
  }

  lemma RealityRead(r: Reality)
    requires Trimmed(r.key) && Trimmed(r.shortId)
    ensures var d := DecodedFields(RealityTable(r));
            JText(d, "public_key") == r.key && JText(d, "short_id") == r.shortId
  {
    hide Table, When, TrimSpace, Trimmed;
    RealityAt(r, "public_key");
    RealityAt(r, "short_id");
    hide RealityTable;
    JReads(RealityTable(r), "public_key");
    JReads(RealityTable(r), "short_id");
    TrimmedIsFixed(r.key);
    TrimmedIsFixed(r.shortId);
    hide JText, DecodedFields, At;
  }

  lemma RealityNodeAt(r: Reality)
    requires r.key != "" || r.shortId != ""
    ensures RealityNode(r) != map[] && CS(RealityNode(r), "public-key") == r.key
            && CS(RealityNode(r), "short-id") == r.shortId
  {
    hide Table, When, CS;
    RealityNodeLookup(r, "public-key");
    RealityNodeLookup(r, "short-id");
    ReadsAt(RealityNode(r), "public-key");
    ReadsAt(RealityNode(r), "short-id");
    ReadsPlain(r.key, true, 0, map[]);
    ReadsPlain(r.shortId, true, 0, map[]);
    hide TextOf, RealityNode;
  }

  lemma BlankNode()
    ensures RealityNode(Reality("", "")) == map[]
  {
    hide Table, When;
    forall j
      ensures j !in RealityNode(Reality("", ""))
    {
      RealityNodeLookup(Reality("", ""), j);
    }
  }

  lemma RealityNodeLookup(r: Reality, j: string)
    ensures At(RealityNode(r), j) ==
            if r.shortId != "" && j == "short-id" then Some(Str(r.shortId))
                else if r.key != "" && j == "public-key" then Some(Str(r.key)) else None
  {
    hide At, Table, When;
    LookupNone(j);
    LookupWhen([], r.key != "", "public-key", Str(r.key), j);
    LookupWhen([] + When(r.key != "", "public-key", Str(r.key)), r.shortId != "", "short-id", Str(r.shortId), j);
  }

  /** What the reader sets for a TLS object, by key. */
  function TlsField(t: Tls, j: string): Option<Value>
  {
    if t.NoTls? then None
    else if t.reality.Some? && !IsBlank(t) && j == "reality-opts" then Some(Map(RealityNode(t.reality.value)))
    else if t.fingerprint != "" && j == "client-fingerprint" then Some(Str(t.fingerprint))
    else if t.alpn != [] && j == "alpn" then Some(Strs(t.alpn))
    else if t.insecure && j == "skip-cert-verify" then Some(Bool(true))
    else if t.sni != "" && j == "sni" then Some(Str(t.sni))
    else if j == "tls" then Some(Bool(true))
    else None
  }

  function Over(v: Option<Value>, below: Option<Value>): Option<Value> { if v.Some? then v else below }

  lemma WithTlsAt(es: seq<Entry>, t: Tls, j: string)
    requires TlsFits(t)
    ensures At(Table(WithTls(es, if t.Tls? then Some(DecodedFields(Table(TlsEntries(t)))) else None)), j) ==
            Over(TlsField(t, j), At(Table(es), j))
  {
    hide At, Table, When, DecodedFields, TlsEntries, TlsOn, JText, JFlag, AlpnIn, FingerprintIn, RealityIn, RealityNode,
        Trimmed;
    if t.Tls? {
      TlsViewed(t);
      FingerprintViewed(t);
      RealityViewed(t);
      if t.reality.Some? && !IsBlank(t) { RealityNodeAt(t.reality.value); }
      BlankNode();
      SixFields(es, t.sni, t.insecure, t.alpn, t.fingerprint, RealityIn(DecodedFields(Table(TlsEntries(t)))), j);
    }
  }

  lemma SixFields(es: seq<Entry>, sni: string, insecure: bool, alpn: seq<string>, fingerprint: string, ro: Fields,
                  j: string)
    ensures At(Table(es + When(true, "tls", Bool(true)) + When(sni != "", "sni", Str(sni))
                        + When(insecure, "skip-cert-verify", Bool(true))
                        + When(alpn != [], "alpn", Strs(alpn))
                        + When(fingerprint != "", "client-fingerprint", Str(fingerprint))
                        + When(ro != map[], "reality-opts", Map(ro))), j) ==
            if ro != map[] && j == "reality-opts" then Some(Map(ro))
            else if fingerprint != "" && j == "client-fingerprint" then Some(Str(fingerprint))
            else if alpn != [] && j == "alpn" then Some(Strs(alpn))
            else if insecure && j == "skip-cert-verify" then Some(Bool(true))
            else if sni != "" && j == "sni" then Some(Str(sni))
            else if j == "tls" then Some(Bool(true))
            else At(Table(es), j)
  {
    hide At, Table, When;
    var e1 := es + When(true, "tls", Bool(true));
    var e2 := e1 + When(sni != "", "sni", Str(sni));
    var e3 := e2 + When(insecure, "skip-cert-verify", Bool(true));
    var e4 := e3 + When(alpn != [], "alpn", Strs(alpn));
    var e5 := e4 + When(fingerprint != "", "client-fingerprint", Str(fingerprint));
    LookupWhen(es, true, "tls", Bool(true), j);
    LookupWhen(e1, sni != "", "sni", Str(sni), j);
    LookupWhen(e2, insecure, "skip-cert-verify", Bool(true), j);
    LookupWhen(e3, alpn != [], "alpn", Strs(alpn), j);
    LookupWhen(e4, fingerprint != "", "client-fingerprint", Str(fingerprint), j);
    LookupWhen(e5, ro != map[], "reality-opts", Map(ro), j);
  }

  /** A bag with the fields set for a TLS object says what the object said. */
  lemma TlsOfFields(c: Fields, t: Tls, always: bool)
    requires TlsFits(t) && (always ==> t.Tls?)
    requires forall j ::
      j in {"tls", "reality-opts", "servername", "sni", "skip-cert-verify", "alpn", "client-fingerprint"} ==>
      At(c, j) == TlsField(t, j)
    ensures TlsOf(c, always) == KeptTls(t)
  {
    hide At, CS, CB, CMap, RealityNode, TlsField, IsBlank;
    ReadsAt(c, "tls");
    ReadsAt(c, "reality-opts");
    ReadsAt(c, "servername");
    ReadsAt(c, "sni");
    ReadsAt(c, "skip-cert-verify");
    ReadsAt(c, "client-fingerprint");
    NoServername(t);
    TlsFieldsRead(t);
    hide TextOf, FlagOf, SubOf, SplitAny;
    RealityKept(t);
  }

  lemma NoServername(t: Tls)
    ensures TlsField(t, "servername") == None && TextOf(None) == ""
  {
  }

  /** The reality options that are set say what is kept of the reality object. */
  lemma RealityKept(t: Tls)
    ensures var ro := if t.Tls? && t.reality.Some? && !IsBlank(t) then RealityNode(t.reality.value) else map[];
            && (t.Tls? && ro == map[] ==> KeptTls(t).reality == None)
            && (t.Tls? && ro != map[] ==> KeptTls(t).reality == Some(Reality(CS(ro, "public-key"), CS(ro, "short-id"))))
            && (t.NoTls? ==> ro == map[] && KeptTls(t) == t)
            && (t.Tls? ==> KeptTls(t) == Tls(t.sni, t.insecure, t.alpn, t.fingerprint, KeptTls(t).reality))
  {
    hide CS, RealityNode;
    if t.Tls? && t.reality.Some? && !IsBlank(t) { RealityNodeAt(t.reality.value); }
  }

  lemma TlsFieldsRead(t: Tls)
    ensures FlagOf(TlsField(t, "tls")) == t.Tls?
    ensures SubOf(TlsField(t, "reality-opts")) ==
            if t.Tls? && t.reality.Some? && !IsBlank(t) then RealityNode(t.reality.value) else map[]
    ensures TextOf(TlsField(t, "sni")) == if t.Tls? then t.sni else ""
    ensures FlagOf(TlsField(t, "skip-cert-verify")) == (t.Tls? && t.insecure)
    ensures SplitAny(TlsField(t, "alpn")) == if t.Tls? then t.alpn else []
    ensures TextOf(TlsField(t, "client-fingerprint")) == if t.Tls? then t.fingerprint else ""
  {
    hide RealityNode;
  }

  // -- the transport object --

  function TransportField(t: Transport, j: string): Option<Value>
  {
    match t
    case Plain => None
    case Ws(path, host) => if j == "ws-opts" then Some(Map(WsNode(path, host)))
        else if j == "network" then Some(Str("ws")) else None
    case Grpc(service) => if j == "grpc-opts" then Some(Map(GrpcNode(service)))
        else if j == "network" then Some(Str("grpc")) else None
    case H2(path, host) => if j == "h2-opts" then Some(Map(H2Node(path, host)))
        else if j == "network" then Some(Str("h2")) else None
  }

  function WsNode(path: string, host: string): Fields
  {
    Table([] + When(path != "", "path", Str(path))
        + When(host != "", "headers", Map(Table([] + When(true, "Host", Str(host))))))
  }

  function GrpcNode(service: string): Fields { Table([] + When(true, "grpc-service-name", Str(service))) }

  function H2Node(path: string, host: string): Fields
  {
    Table([] + When(path != "", "path", Str(path)) + When(host != "", "host", Strs([host])))
  }

  lemma HostTableAt(host: string, j: string)
    ensures At(Table([] + When(true, "Host", Str(host))), j) == if j == "Host" then Some(Str(host)) else None
  {
    hide At, Table, When;
    LookupNone(j);
    LookupWhen([], true, "Host", Str(host), j);
  }

  lemma WsJsonAt(path: string, host: string, j: string)
    ensures At(Table(TransportEntries(Ws(path, host))), j) ==
            if host != "" && j == "headers" then Some(Map(Table([] + When(true, "Host", Str(host)))))
            else if path != "" && j == "path" then Some(Str(path))
            else if j == "type" then Some(Str("ws")) else None
  {
    hide At, Table, When;
    LookupNone(j);
    var e1 := [] + When(true, "type", Str("ws"));
    LookupWhen([], true, "type", Str("ws"), j);
    LookupWhen(e1, path != "", "path", Str(path), j);
    LookupWhen(e1 + When(path != "", "path", Str(path)), host != "", "headers",
        Map(Table([] + When(true, "Host", Str(host)))), j);
  }

  lemma WsViewed(path: string, host: string)
    requires Trimmed(path) && Trimmed(host)
    ensures var d := DecodedFields(Table(TransportEntries(Ws(path, host))));
            JText(d, "type") == "ws" && WsOptions(d) == WsNode(path, host)
  {
    var m := Table(TransportEntries(Ws(path, host)));
    WsJsonAt(path, host, "type");
    WsJsonAt(path, host, "path");
    WsJsonAt(path, host, "headers");
    HostTableAt(host, "Host");
    hide TransportEntries, Table, When, Trimmed, TrimSpace;
    JReads(m, "type");
    JReads(m, "path");
    JReads(m, "headers");
    JReads(Table([] + When(true, "Host", Str(host))), "Host");
    TrimmedIsFixed(path);
    TrimmedIsFixed(host);
    WordsAreFixed();
    hide JText, JMap, DecodedFields, At;
  }

  lemma WordsAreFixed()
    ensures TrimSpace("ws") == "ws" && TrimSpace("grpc") == "grpc" && TrimSpace("http") == "http"
  {
    GraphIsTrimmed("ws");
    GraphIsTrimmed("grpc");
    GraphIsTrimmed("http");
    hide TrimSpace;
  }

  lemma GrpcViewed(service: string)
    requires Trimmed(service)
    ensures var d := DecodedFields(Table(TransportEntries(Grpc(service))));
            JText(d, "type") == "grpc" && JText(d, "service_name") == service
  {
    var m := Table(TransportEntries(Grpc(service)));
    GrpcJsonAt(service, "type");
    GrpcJsonAt(service, "service_name");
    hide TransportEntries, Table, When, Trimmed, TrimSpace;
    JReads(m, "type");
    JReads(m, "service_name");
    TrimmedIsFixed(service);
    WordsAreFixed();
    hide JText, DecodedFields, At;
  }

  lemma GrpcJsonAt(service: string, j: string)
    ensures At(Table(TransportEntries(Grpc(service))), j) ==
            if j == "service_name" then Some(Str(service)) else if j == "type" then Some(Str("grpc")) else None
  {
    hide At, Table, When;
    LookupNone(j);
    LookupWhen([], true, "type", Str("grpc"), j);
    LookupWhen([] + When(true, "type", Str("grpc")), true, "service_name", Str(service), j);
  }

  lemma H2JsonAt(path: string, host: string, j: string)
    ensures At(Table(TransportEntries(H2(path, host))), j) ==
            if host != "" && j == "host" then Some(Strs([host]))
            else if path != "" && j == "path" then Some(Str(path))
            else if j == "type" then Some(Str("http")) else None
  {
    hide At, Table, When;
    LookupNone(j);
    var e1 := [] + When(true, "type", Str("http"));
    LookupWhen([], true, "type", Str("http"), j);
    LookupWhen(e1, path != "", "path", Str(path), j);
    LookupWhen(e1 + When(path != "", "path", Str(path)), host != "", "host", Strs([host]), j);
  }

  lemma H2Viewed(path: string, host: string)
    requires Trimmed(path)
    ensures var d := DecodedFields(Table(TransportEntries(H2(path, host))));
            JText(d, "type") == "http" && H2Options(d) == H2Node(path, host)
  {
    var m := Table(TransportEntries(H2(path, host)));
    H2JsonAt(path, host, "type");
    H2JsonAt(path, host, "path");
    H2JsonAt(path, host, "host");
    hide TransportEntries, Table, Trimmed, TrimSpace;
    JReads(m, "type");
    JReads(m, "path");
    LookupDecoded(m, "host");
    TrimmedIsFixed(path);
    WordsAreFixed();
    DecodedStrs([host]);
    StringsBack([host]);
    hide JText, DecodedFields, Decoded, OnlyStrings, H2Options, H2Node;
    H2Made(DecodedFields(m), path, host);
  }

  lemma H2Made(d: Fields, path: string, host: string)
    requires JText(d, "path") == path && OnlyStrings(StrItems([host])) == [host]
    requires At(d, "host") == if host != "" then Some(List(StrItems([host]))) else None
    ensures H2Options(d) == H2Node(path, host)
  {
    hide JText, Table, OnlyStrings;
  }

  lemma WithTransportAt(es: seq<Entry>, t: Transport, j: string)
    requires TransportFits(t)
    ensures At(Table(WithTransport(es, if t.Plain? then None else Some(DecodedFields(Table(TransportEntries(t)))))), j)
         == Over(TransportField(t, j), At(Table(es), j))
  {
    hide At, Table, When, DecodedFields, TransportEntries, JText, WsOptions, H2Options, Trimmed, WsNode, GrpcNode,
        H2Node;
    match t {
      case Plain =>
      case Ws(path, host) =>
        WsViewed(path, host);
        TwoFields(es, "ws", "ws-opts", WsNode(path, host), j);
      case Grpc(service) =>
        GrpcViewed(service);
        TwoFields(es, "grpc", "grpc-opts", GrpcNode(service), j);
        GrpcMade(service);
      case H2(path, host) =>
        H2Viewed(path, host);
        TwoFields(es, "h2", "h2-opts", H2Node(path, host), j);
    }
  }

  lemma GrpcMade(service: string)
    ensures GrpcNode(service) == Table([] + When(true, "grpc-service-name", Str(service)))
  {
  }

  lemma TwoFields(es: seq<Entry>, network: string, key: string, o: Fields, j: string)
    ensures At(Table(es + When(true, "network", Str(network)) + When(true, key, Map(o))), j) ==
            if j == key then Some(Map(o)) else if j == "network" then Some(Str(network)) else At(Table(es), j)
  {
    hide At, Table, When;
    LookupWhen(es, true, "network", Str(network), j);
    LookupWhen(es + When(true, "network", Str(network)), true, key, Map(o), j);
  }

  lemma TransportOfFields(c: Fields, t: Transport)
    requires forall j :: j in {"network", "ws-opts", "grpc-opts", "h2-opts"} ==> At(c, j) == TransportField(t, j)
    ensures TransportOf(c) == t
  {
    hide At, CS, CMap, WsNode, GrpcNode, H2Node;
    ReadsAt(c, "network");
    ReadsAt(c, "ws-opts");
    ReadsAt(c, "grpc-opts");
    ReadsAt(c, "h2-opts");
    TransportFieldsRead(t);
  }

  lemma TransportFieldsRead(t: Transport)
    ensures TextOf(TransportField(t, "network")) ==
            (match t case Plain => "" case Ws(_, _) => "ws" case Grpc(_) => "grpc" case H2(_, _) => "h2")
    ensures t.Ws? ==> CS(SubOf(TransportField(t, "ws-opts")), "path") == t.path
                      && CS(CMap(SubOf(TransportField(t, "ws-opts")), "headers"), "Host") == t.host
    ensures t.Grpc? ==> CS(SubOf(TransportField(t, "grpc-opts")), "grpc-service-name") == t.service
    ensures t.H2? ==> CS(SubOf(TransportField(t, "h2-opts")), "path") == t.path
                      && JoinAny(At(SubOf(TransportField(t, "h2-opts")), "host")) == t.host
  {
    match t {
      case Plain =>
      case Ws(path, host) => WsNodeReads(path, host);
      case Grpc(service) => GrpcNodeReads(service);
      case H2(path, host) => H2NodeReads(path, host);
    }
    hide WsNode, GrpcNode, H2Node, JoinAny;
  }

  lemma WsNodeReads(path: string, host: string)
    ensures CS(WsNode(path, host), "path") == path && CS(CMap(WsNode(path, host), "headers"), "Host") == host
  {
    hide At, Table, When, CS, CMap;
    WsNodeAt(path, host, "path");
    WsNodeAt(path, host, "headers");
    HostTableAt(host, "Host");
    var m := Table([] + When(true, "Host", Str(host)));
    ReadsAt(WsNode(path, host), "path");
    ReadsAt(WsNode(path, host), "headers");
    ReadsAt(m, "Host");
    ReadsAt(map[], "Host");
    assert At(map[], "Host") == None by { LookupNone("Host"); EmptyTable(); }
    ReadsPlain(path, true, 0, m);
    ReadsPlain(host, true, 0, m);
    hide TextOf, SubOf, WsNode;
  }

  lemma EmptyTable()
    ensures Table([]) == map[]
  {
  }

  lemma WsNodeAt(path: string, host: string, j: string)
    ensures At(WsNode(path, host), j) ==
            if host != "" && j == "headers" then Some(Map(Table([] + When(true, "Host", Str(host)))))
            else if path != "" && j == "path" then Some(Str(path)) else None
  {
    hide At, Table, When;
    LookupNone(j);
    LookupWhen([], path != "", "path", Str(path), j);
    LookupWhen([] + When(path != "", "path", Str(path)), host != "", "headers",
        Map(Table([] + When(true, "Host", Str(host)))), j);
  }

  lemma GrpcNodeReads(service: string)
    ensures CS(GrpcNode(service), "grpc-service-name") == service
  {
    hide Table, When, CS;
    LookupWhen([], true, "grpc-service-name", Str(service), "grpc-service-name");
    ReadsAt(GrpcNode(service), "grpc-service-name");
    ReadsPlain(service, true, 0, map[]);
    hide TextOf;
  }

  lemma H2NodeReads(path: string, host: string)
    ensures CS(H2Node(path, host), "path") == path && JoinAny(At(H2Node(path, host), "host")) == host
  {
    hide At, Table, When, CS;
    H2NodeAt(path, host, "path");
    H2NodeAt(path, host, "host");
    ReadsAt(H2Node(path, host), "path");
    ReadsPlain(path, true, 0, map[]);
    JoinOne(host, ",");
    hide TextOf, H2Node, Join;
  }

  lemma H2NodeAt(path: string, host: string, j: string)
    ensures At(H2Node(path, host), j) ==
            if host != "" && j == "host" then Some(Strs([host])) else if path != "" && j == "path" then Some(Str(path))
                else None
  {
    hide At, Table, When;
    LookupNone(j);
    LookupWhen([], path != "", "path", Str(path), j);
    LookupWhen([] + When(path != "", "path", Str(path)), host != "", "host", Strs([host]), j);
  }

  // -- keys --

  predicate IsTlsKey(j: string)
  {
    j in {"tls", "reality-opts", "servername", "sni", "skip-cert-verify", "alpn", "client-fingerprint"}
  }

  predicate IsTransportKey(j: string) { j in {"network", "ws-opts", "grpc-opts", "h2-opts"} }

  predicate IsPlainKey(j: string)
  {
    j in {"name", "type", "server", "port", "tfo", "udp", "cipher", "password", "alterId", "uuid", "flow",
          "obfs", "obfs-password", "auth-str", "up", "down", "congestion-controller", "username"}
  }

  lemma KeysApart(j: string)
    ensures IsTlsKey(j) ==> !IsPlainKey(j) && !IsTransportKey(j)
    ensures IsTransportKey(j) ==> !IsPlainKey(j)
  {
    if IsTlsKey(j) {
      assert |j| != 3 || j == "tls" || j == "sni";
    }
  }

  lemma FieldsElsewhere(t: Tls, tr: Transport, j: string)
    ensures !IsTlsKey(j) ==> TlsField(t, j) == None
    ensures !IsTransportKey(j) ==> TransportField(tr, j) == None
  {
    hide RealityNode, WsNode, GrpcNode, H2Node;
  }

  // -- the front of every object --

  function FrontField(o: Outbound, j: string): Option<Value>
  {
    if o.tfo && j == "tcp_fast_open" then Some(Bool(true))
    else if j == "server_port" then Some(Int(o.port))
    else if j == "server" then Some(Str(o.server))
    else if j == "tag" then Some(Str(o.tag))
    else None
  }

  lemma FrontAt(o: Outbound, j: string)
    ensures At(Table(Front(o)), j) == FrontField(o, j)
  {
    hide At, Table, When;
    LookupNone(j);
    var e1 := [] + When(true, "tag", Str(o.tag));
    var e2 := e1 + When(true, "server", Str(o.server));
    var e3 := e2 + When(true, "server_port", Int(o.port));
    LookupWhen([], true, "tag", Str(o.tag), j);
    LookupWhen(e1, true, "server", Str(o.server), j);
    LookupWhen(e2, true, "server_port", Int(o.port), j);
    LookupWhen(e3, o.tfo, "tcp_fast_open", Bool(true), j);
  }

  lemma TlsPartAt(es: seq<Entry>, t: Tls, j: string)
    ensures At(Table(TlsPart(es, t)), j) == if t.Tls? && j == "tls" then Some(Map(Table(TlsEntries(t))))
            else At(Table(es), j)
  {
    hide At, Table, When, TlsEntries;
    LookupWhen(es, t.Tls?, "tls", Map(if t.Tls? then Table(TlsEntries(t)) else map[]), j);
  }

  lemma TransportPartAt(es: seq<Entry>, t: Transport, j: string)
    ensures At(Table(TransportPart(es, t)), j) ==
            if !t.Plain? && j == "transport" then Some(Map(Table(TransportEntries(t)))) else At(Table(es), j)
  {
    hide At, Table, When, TransportEntries;
    LookupWhen(es, !t.Plain?, "transport", Map(Table(TransportEntries(t))), j);
  }

  /** What the parser sees of the TLS and transport objects. */
  function TlsSeen(t: Tls): Option<Fields> { if t.Tls? then Some(DecodedFields(Table(TlsEntries(t)))) else None }

  function TransportSeen(t: Transport): Option<Fields>
  {
    if t.Plain? then None else Some(DecodedFields(Table(TransportEntries(t))))
  }

  /** The fields every object has, as the parser sees them. */
  predicate CommonSeen(o: Outbound, typ: string)
  {
    var ob := DecodedFields(Json(o));
    && JText(ob, "type") == typ && JText(ob, "tag") == o.tag && JText(ob, "server") == o.server
    && JInt(ob, "server_port") == o.port
  }

  lemma CommonRead(o: Outbound, typ: string)
    requires Trimmed(o.tag) && Trimmed(o.server) && Trimmed(typ)
    requires At(Json(o), "type") == Some(Str(typ)) && At(Json(o), "tag") == Some(Str(o.tag))
            && At(Json(o), "server") == Some(Str(o.server))
    requires At(Json(o), "server_port") == Some(Int(o.port))
    ensures CommonSeen(o, typ)
  {
    hide Json, At, DecodedFields, JText, JInt, Trimmed, TrimSpace;
    JReads(Json(o), "type");
    JReads(Json(o), "tag");
    JReads(Json(o), "server");
    JReads(Json(o), "server_port");
    TrimmedIsFixed(typ);
    TrimmedIsFixed(o.tag);
    TrimmedIsFixed(o.server);
  }

  function SeedField(typ: string, o: Outbound, j: string): Option<Value>
  {
    if j == "port" then Some(Int(o.port))
    else if j == "server" then Some(Str(o.server))
    else if j == "type" then Some(Str(typ))
    else if j == "name" then Some(Str(o.tag))
    else None
  }

  lemma SeedAt(typ: string, o: Outbound, j: string)
    ensures At(Table(SeedEntries(typ, o.tag, o.server, o.port)), j) == SeedField(typ, o, j)
  {
    hide At, Table, When;
    LookupNone(j);
    var e1 := [] + When(true, "name", Str(o.tag));
    var e2 := e1 + When(true, "type", Str(typ));
    var e3 := e2 + When(true, "server", Str(o.server));
    LookupWhen([], true, "name", Str(o.tag), j);
    LookupWhen(e1, true, "type", Str(typ), j);
    LookupWhen(e2, true, "server", Str(o.server), j);
    LookupWhen(e3, true, "port", Int(o.port), j);
  }

  lemma PutAt(es: seq<Entry>, key: string, s: string, j: string)
    ensures At(Table(Put(es, key, s)), j) == if s != "" && j == key then Some(Str(s)) else At(Table(es), j)
  {
    hide At, Table, When;
    LookupWhen(es, s != "", key, Str(s), j);
  }

  /** The bag read for an outbound of a Clash type. */
  function BagOf(typ: string, o: Outbound): Fields
  {
    Table(NodeEntries(SeedEntries(typ, o.tag, o.server, o.port), typ, DecodedFields(Json(o))))
  }

  // -- vmess --

  lemma VMessJsonAt(o: Outbound, j: string)
    requires o.kind.VMess?
    ensures At(Json(o), j) ==
            if o.kind.tls.Tls? && j == "tls" then Some(Map(Table(TlsEntries(o.kind.tls))))
            else if !o.kind.transport.Plain? && j == "transport" then
              Some(Map(Table(TransportEntries(o.kind.transport))))
            else if j == "security" then Some(Str(o.kind.security))
            else if j == "alter_id" then Some(Int(o.kind.alterId))
            else if j == "uuid" then Some(Str(o.kind.uuid))
            else if j == "type" then Some(Str("vmess"))
            else FrontField(o, j)
  {
    hide At, Table, When, TlsEntries, TransportEntries, Front, FrontField;
    var k := o.kind;
    FrontAt(o, j);
    var e1 := Front(o) + When(true, "type", Str("vmess"));
    var e2 := e1 + When(true, "uuid", Str(k.uuid));
    var e3 := e2 + When(true, "alter_id", Int(k.alterId));
    var e4 := e3 + When(true, "security", Str(k.security));
    LookupWhen(Front(o), true, "type", Str("vmess"), j);
    LookupWhen(e1, true, "uuid", Str(k.uuid), j);
    LookupWhen(e2, true, "alter_id", Int(k.alterId), j);
    LookupWhen(e3, true, "security", Str(k.security), j);
    TransportPartAt(e4, k.transport, j);
    TlsPartAt(TransportPart(e4, k.transport), k.tls, j);
  }

  lemma VMessSeen(o: Outbound)
    requires o.kind.VMess? && KindFits(o.kind)
    ensures var ob, k := DecodedFields(Json(o)), o.kind;
            && JText(ob, "uuid") == k.uuid && JInt(ob, "alter_id") == k.alterId && JText(ob, "security") == k.security
            && JFlag(ob, "tcp_fast_open") == o.tfo
            && JMap(ob, "tls") == TlsSeen(k.tls) && JMap(ob, "transport") == TransportSeen(k.transport)
  {
    hide At, Table, Trimmed, TrimSpace, TlsEntries, TransportEntries, JText, JInt, JFlag, JMap, DecodedFields, Json,
        TlsFits, TransportFits;
    forall j { VMessJsonAt(o, j); }
    JReadsAll(Json(o));
    TrimmedIsFixed(o.kind.uuid);
    TrimmedIsFixed(o.kind.security);
  }

  predicate PluginFits(p: Plugin)
  {
    match p
    case NoPlugin => true
    case Obfs(mode, host) => OptionFits(mode) && OptionFits(host)
    case V2ray(mode, tls, host, path) => mode != "" && OptionFits(mode) && OptionFits(host) && OptionFits(path)
  }

  predicate OptionFits(s: string) { Trimmed(s) && ';' !in s }

  /** Trimmed strings, and values the reader takes back as they are. */
  predicate KindFits(k: Kind)
  {
    match k
    case SS(cipher, password, plugin) => Trimmed(cipher) && Trimmed(password) && PluginFits(plugin)
    case VMess(uuid, alterId, security, transport, tls) =>
      Trimmed(uuid) && alterId >= 0 && security != "" && Trimmed(security) && TransportFits(transport) && TlsFits(tls)
    case VLess(uuid, flow, transport, tls) => Trimmed(uuid) && Trimmed(flow) && TransportFits(transport) && TlsFits(tls)
    case Trojan(password, transport, tls) => Trimmed(password) && TransportFits(transport) && TlsFits(tls) && tls.Tls?
    case Hysteria2(password, obfs, obfsPassword, tls) =>
      Trimmed(password) && Trimmed(obfs) && Trimmed(obfsPassword) && (obfs == "" ==> obfsPassword == "") && TlsFits(tls)
          && tls.Tls?
    case Tuic(uuid, password, congestion, tls) => Trimmed(uuid) && Trimmed(password) && Trimmed(congestion)
        && TlsFits(tls) && tls.Tls?
    case Socks(username, password) => Trimmed(username) && Trimmed(password)
    case Http(username, password, tls) => Trimmed(username) && Trimmed(password) && TlsFits(tls)
    case WireGuard(privateKey, publicKey, sharedKey, ip, ipv6, mtu, reserved) =>
      Trimmed(privateKey) && Trimmed(publicKey) && Trimmed(sharedKey) && AddressFits(ip, "/32") && ':' !in ip
      && AddressFits(ipv6, "/128") && (ipv6 != "" ==> ':' in ipv6) && mtu >= 0
    case Hysteria(auth, up, down, obfs, tls) =>
      Trimmed(auth) && 0 <= up <= MAX_INT && 0 <= down <= MAX_INT && Trimmed(obfs) && TlsFits(tls) && tls.Tls?
  }

  /** An address that keeps its prefix length when the default one is cut off and put back. */
  predicate AddressFits(a: string, suffix: string)
  {
    a != "" ==>
      && Trimmed(a) && '/' in a
      && (HasSuffix(a, suffix) ==> |a| > |suffix| && '/' !in a[..|a| - |suffix|])
  }

  lemma TlsBack(c: Fields, t: Tls, always: bool)
    requires TlsFits(t) && (always ==> t.Tls?) && forall j :: IsTlsKey(j) ==> At(c, j) == TlsField(t, j)
    ensures TlsOf(c, always) == KeptTls(t)
  {
    hide TlsField, TlsFits;
    TlsOfFields(c, t, always);
  }

  lemma TransportBack(c: Fields, t: Transport)
    requires forall j :: IsTransportKey(j) ==> At(c, j) == TransportField(t, j)
    ensures TransportOf(c) == t
  {
    hide TransportField;
    TransportOfFields(c, t);
  }

  /** TLS and transport fields set over others: they say what the objects said, the others are as before. */
  lemma LayeredBag(es: seq<Entry>, t: Tls, tr: Transport, tfo: bool)
    requires TlsFits(t) && TransportFits(tr) && forall j :: !IsPlainKey(j) ==> At(Table(es), j) == None
    ensures var c := Table(WithTransport(WithTls(es, TlsSeen(t)), TransportSeen(tr)) + When(tfo, "tfo", Bool(true)));
            && TlsOf(c, false) == KeptTls(t) && (t.Tls? ==> TlsOf(c, true) == KeptTls(t)) && TransportOf(c) == tr
            && forall j :: IsPlainKey(j) ==>
                 At(c, j) == if tfo && j == "tfo" then Some(Bool(true)) else At(Table(es), j)
  {
    hide At, Table, When, WithTls, WithTransport, TlsEntries, TransportEntries, TlsFits, TransportFits, TlsField,
        TransportField, TlsOf, TransportOf, KeptTls, IsTlsKey, IsTransportKey, IsPlainKey;
    var e1 := WithTls(es, TlsSeen(t));
    var e2 := WithTransport(e1, TransportSeen(tr));
    var c := Table(e2 + When(tfo, "tfo", Bool(true)));
    assert IsPlainKey("tfo") by { TfoIsPlain(); }
    forall j
      ensures At(c, j) == if tfo && j == "tfo" then Some(Bool(true)) else
                          Over(TransportField(tr, j), Over(TlsField(t, j), At(Table(es), j)))
      ensures IsTlsKey(j) ==> At(c, j) == TlsField(t, j)
      ensures IsTransportKey(j) ==> At(c, j) == TransportField(tr, j)
      ensures IsPlainKey(j) ==> At(c, j) == if tfo && j == "tfo" then Some(Bool(true)) else At(Table(es), j)
    {
      WithTlsAt(es, t, j);
      WithTransportAt(e1, tr, j);
      LookupWhen(e2, tfo, "tfo", Bool(true), j);
      KeysApart(j);
      FieldsElsewhere(t, tr, j);
    }
    TlsBack(c, t, false);
    if t.Tls? { TlsBack(c, t, true); }
    TransportBack(c, tr);
  }

  /** The same when there are TLS fields only. */
  lemma TlsBag(es: seq<Entry>, t: Tls)
    requires TlsFits(t) && forall j :: !IsPlainKey(j) ==> At(Table(es), j) == None
    ensures var c := Table(WithTls(es, TlsSeen(t)));
            && TlsOf(c, false) == KeptTls(t) && (t.Tls? ==> TlsOf(c, true) == KeptTls(t))
            && forall j :: IsPlainKey(j) ==> At(c, j) == At(Table(es), j)
  {
    hide At, Table, WithTls, TlsFits, TlsOf, KeptTls, IsPlainKey, TlsSeen;
    LayeredBag(es, t, Plain, false);
    assert WithTls(es, TlsSeen(t)) + When(false, "tfo", Bool(true)) == WithTls(es, TlsSeen(t));
  }

  lemma TfoIsPlain()
    ensures IsPlainKey("tfo")
  {
  }

  lemma VMessBack(o: Outbound)
    requires o.kind.VMess? && KindFits(o.kind)
    ensures var c := BagOf("vmess", o);
            && KindOf("vmess", c) == Some(KeptKind(o.kind))
            && CS(c, "server") == o.server && CI(c, "port") == o.port && CB(c, "tfo") == o.tfo
  {
    hide At, Table, When, Put, Trimmed, JText, JInt, JFlag, JMap, DecodedFields, Json, WithTls, WithTransport,
        SeedEntries, TlsOf, TransportOf, TlsFits, TransportFits, TlsSeen, TransportSeen, KeptTls, CS, CB, CI, CMap,
        TextOf, FlagOf, NumberOf, SubOf;
    var k := o.kind;
    VMessSeen(o);
    var e0 := SeedEntries("vmess", o.tag, o.server, o.port);
    var e1 := Put(e0, "uuid", k.uuid);
    var e2 := e1 + When(k.alterId >= 0, "alterId", Int(k.alterId));
    var e3 := Put(e2, "cipher", k.security);
    forall j
      ensures At(Table(e3), j) ==
              if j == "cipher" then Some(Str(k.security))
              else if j == "alterId" then Some(Int(k.alterId))
              else if k.uuid != "" && j == "uuid" then Some(Str(k.uuid))
              else SeedField("vmess", o, j)
    {
      SeedAt("vmess", o, j);
      PutAt(e0, "uuid", k.uuid, j);
      LookupWhen(e1, k.alterId >= 0, "alterId", Int(k.alterId), j);
      PutAt(e2, "cipher", k.security, j);
    }
    LayeredBag(e3, k.tls, k.transport, o.tfo);
    ReadsAll(BagOf("vmess", o));
  }

  // -- vless --

  lemma VLessJsonAt(o: Outbound, j: string)
    requires o.kind.VLess?
    ensures At(Json(o), j) ==
            if o.kind.tls.Tls? && j == "tls" then Some(Map(Table(TlsEntries(o.kind.tls))))
            else if !o.kind.transport.Plain? && j == "transport" then
              Some(Map(Table(TransportEntries(o.kind.transport))))
            else if o.kind.flow != "" && j == "flow" then Some(Str(o.kind.flow))
            else if j == "uuid" then Some(Str(o.kind.uuid))
            else if j == "type" then Some(Str("vless"))
            else FrontField(o, j)
  {
    hide At, Table, When, TlsEntries, TransportEntries, Front, FrontField;
    var k := o.kind;
    FrontAt(o, j);
    var e1 := Front(o) + When(true, "type", Str("vless"));
    LookupWhen(Front(o), true, "type", Str("vless"), j);
    var e2 := e1 + When(true, "uuid", Str(k.uuid));
    LookupWhen(e1, true, "uuid", Str(k.uuid), j);
    var e3 := e2 + When(k.flow != "", "flow", Str(k.flow));
    LookupWhen(e2, k.flow != "", "flow", Str(k.flow), j);
    TransportPartAt(e3, k.transport, j);
    TlsPartAt(TransportPart(e3, k.transport), k.tls, j);
  }

  lemma VLessSeen(o: Outbound)
    requires o.kind.VLess? && KindFits(o.kind)
    ensures var ob, k := DecodedFields(Json(o)), o.kind;
            && JText(ob, "uuid") == k.uuid && JText(ob, "flow") == k.flow && JFlag(ob, "tcp_fast_open") == o.tfo
            && JMap(ob, "tls") == TlsSeen(k.tls) && JMap(ob, "transport") == TransportSeen(k.transport)
  {
    hide At, Table, Trimmed, TrimSpace, TlsEntries, TransportEntries, JText, JInt, JFlag, JMap, DecodedFields, Json,
        TlsFits, TransportFits;
    forall j { VLessJsonAt(o, j); }
    JReadsAll(Json(o));
    TrimmedIsFixed(o.kind.uuid);
    TrimmedIsFixed(o.kind.flow);
  }

  lemma VLessBack(o: Outbound)
    requires o.kind.VLess? && KindFits(o.kind)
    ensures var c := BagOf("vless", o);
            && KindOf("vless", c) == Some(KeptKind(o.kind))
            && CS(c, "server") == o.server && CI(c, "port") == o.port && CB(c, "tfo") == o.tfo
  {
    hide At, Table, When, Put, Trimmed, JText, JInt, JFlag, JMap, DecodedFields, Json, WithTls, WithTransport,
        SeedEntries, TlsOf, TransportOf, TlsFits, TransportFits, TlsSeen, TransportSeen, KeptTls, CS, CB, CI, CMap,
        TextOf, FlagOf, NumberOf, SubOf;
    var k := o.kind;
    VLessSeen(o);
    var e0 := SeedEntries("vless", o.tag, o.server, o.port);
    var e1 := Put(e0, "uuid", k.uuid);
    var e2 := Put(e1, "flow", k.flow);
    forall j
      ensures At(Table(e2), j) ==
              if k.flow != "" && j == "flow" then Some(Str(k.flow))
              else if k.uuid != "" && j == "uuid" then Some(Str(k.uuid))
              else SeedField("vless", o, j)
    {
      SeedAt("vless", o, j);
      PutAt(e0, "uuid", k.uuid, j);
      PutAt(e1, "flow", k.flow, j);
    }
    LayeredBag(e2, k.tls, k.transport, o.tfo);
    ReadsAll(BagOf("vless", o));
  }

  // -- trojan --

  lemma TrojanJsonAt(o: Outbound, j: string)
    requires o.kind.Trojan?
    ensures At(Json(o), j) ==
            if o.kind.tls.Tls? && j == "tls" then Some(Map(Table(TlsEntries(o.kind.tls))))
            else if !o.kind.transport.Plain? && j == "transport" then
              Some(Map(Table(TransportEntries(o.kind.transport))))
            else if j == "password" then Some(Str(o.kind.password))
            else if j == "type" then Some(Str("trojan"))
            else FrontField(o, j)
  {
    hide At, Table, When, TlsEntries, TransportEntries, Front, FrontField;
    var k := o.kind;
    FrontAt(o, j);
    var e1 := Front(o) + When(true, "type", Str("trojan"));
    LookupWhen(Front(o), true, "type", Str("trojan"), j);
    var e2 := e1 + When(true, "password", Str(k.password));
    LookupWhen(e1, true, "password", Str(k.password), j);
    TransportPartAt(e2, k.transport, j);
    TlsPartAt(TransportPart(e2, k.transport), k.tls, j);
  }

  lemma TrojanSeen(o: Outbound)
    requires o.kind.Trojan? && KindFits(o.kind)
    ensures var ob, k := DecodedFields(Json(o)), o.kind;
            && JText(ob, "password") == k.password && JFlag(ob, "tcp_fast_open") == o.tfo
            && JMap(ob, "tls") == TlsSeen(k.tls) && JMap(ob, "transport") == TransportSeen(k.transport)
  {
    hide At, Table, Trimmed, TrimSpace, TlsEntries, TransportEntries, JText, JInt, JFlag, JMap, DecodedFields, Json,
        TlsFits, TransportFits;
    forall j { TrojanJsonAt(o, j); }
    JReadsAll(Json(o));
    TrimmedIsFixed(o.kind.password);
  }

  lemma TrojanBack(o: Outbound)
    requires o.kind.Trojan? && KindFits(o.kind)
    ensures var c := BagOf("trojan", o);
            && KindOf("trojan", c) == Some(KeptKind(o.kind))
            && CS(c, "server") == o.server && CI(c, "port") == o.port && CB(c, "tfo") == o.tfo
  {
    hide At, Table, When, Put, Trimmed, JText, JInt, JFlag, JMap, DecodedFields, Json, WithTls, WithTransport,
        SeedEntries, TlsOf, TransportOf, TlsFits, TransportFits, TlsSeen, TransportSeen, KeptTls, CS, CB, CI, CMap,
        TextOf, FlagOf, NumberOf, SubOf;
    var k := o.kind;
    TrojanSeen(o);
    var e0 := SeedEntries("trojan", o.tag, o.server, o.port);
    var e1 := Put(e0, "password", k.password);
    var e2 := e1 + When(true, "udp", Bool(true));
    forall j
      ensures At(Table(e2), j) ==
              if j == "udp" then Some(Bool(true))
              else if k.password != "" && j == "password" then Some(Str(k.password))
              else SeedField("trojan", o, j)
    {
      SeedAt("trojan", o, j);
      PutAt(e0, "password", k.password, j);
      LookupWhen(e1, true, "udp", Bool(true), j);
    }
    LayeredBag(e2, k.tls, k.transport, o.tfo);
    ReadsAll(BagOf("trojan", o));
  }

  // -- tuic --

  lemma TuicJsonAt(o: Outbound, j: string)
    requires o.kind.Tuic?
    ensures At(Json(o), j) ==
            if o.kind.tls.Tls? && j == "tls" then Some(Map(Table(TlsEntries(o.kind.tls))))
            else if o.kind.congestion != "" && j == "congestion_control" then Some(Str(o.kind.congestion))
            else if j == "password" then Some(Str(o.kind.password))
            else if j == "uuid" then Some(Str(o.kind.uuid))
            else if j == "type" then Some(Str("tuic"))
            else FrontField(o, j)
  {
    hide At, Table, When, TlsEntries, TransportEntries, Front, FrontField;
    var k := o.kind;
    FrontAt(o, j);
    var e1 := Front(o) + When(true, "type", Str("tuic"));
    LookupWhen(Front(o), true, "type", Str("tuic"), j);
    var e2 := e1 + When(true, "uuid", Str(k.uuid));
    LookupWhen(e1, true, "uuid", Str(k.uuid), j);
    var e3 := e2 + When(true, "password", Str(k.password));
    LookupWhen(e2, true, "password", Str(k.password), j);
    var e4 := e3 + When(k.congestion != "", "congestion_control", Str(k.congestion));
    LookupWhen(e3, k.congestion != "", "congestion_control", Str(k.congestion), j);
    TlsPartAt(e4, k.tls, j);
  }

  lemma TuicSeen(o: Outbound)
    requires o.kind.Tuic? && KindFits(o.kind)
    ensures var ob, k := DecodedFields(Json(o)), o.kind;
            && JText(ob, "uuid") == k.uuid && JText(ob, "password") == k.password
            && JText(ob, "congestion_control") == k.congestion && JMap(ob, "tls") == TlsSeen(k.tls)
  {
    hide At, Table, Trimmed, TrimSpace, TlsEntries, TransportEntries, JText, JInt, JFlag, JMap, DecodedFields, Json,
        TlsFits, TransportFits;
    forall j { TuicJsonAt(o, j); }
    JReadsAll(Json(o));
    TrimmedIsFixed(o.kind.uuid);
    TrimmedIsFixed(o.kind.password);
    TrimmedIsFixed(o.kind.congestion);
  }

  lemma TuicBack(o: Outbound)
    requires o.kind.Tuic? && KindFits(o.kind)
    ensures var c := BagOf("tuic", o);
            && KindOf("tuic", c) == Some(KeptKind(o.kind))
            && CS(c, "server") == o.server && CI(c, "port") == o.port
  {
    hide At, Table, When, Put, Trimmed, JText, JInt, JFlag, JMap, DecodedFields, Json, WithTls, WithTransport,
        SeedEntries, TlsOf, TransportOf, TlsFits, TransportFits, TlsSeen, TransportSeen, KeptTls, CS, CB, CI, CMap,
        TextOf, FlagOf, NumberOf, SubOf;
    var k := o.kind;
    TuicSeen(o);
    var e0 := SeedEntries("tuic", o.tag, o.server, o.port);
    var e1 := Put(e0, "uuid", k.uuid);
    var e2 := Put(e1, "password", k.password);
    var e3 := Put(e2, "congestion-controller", k.congestion);
    forall j
      ensures At(Table(e3), j) ==
              if k.congestion != "" && j == "congestion-controller" then Some(Str(k.congestion))
              else if k.password != "" && j == "password" then Some(Str(k.password))
              else if k.uuid != "" && j == "uuid" then Some(Str(k.uuid))
              else SeedField("tuic", o, j)
    {
      SeedAt("tuic", o, j);
      PutAt(e0, "uuid", k.uuid, j);
      PutAt(e1, "password", k.password, j);
      PutAt(e2, "congestion-controller", k.congestion, j);
    }
    TlsBag(e3, k.tls);
    ReadsAll(BagOf("tuic", o));
  }

  // -- http --

  lemma HttpJsonAt(o: Outbound, j: string)
    requires o.kind.Http?
    ensures At(Json(o), j) ==
            if o.kind.tls.Tls? && j == "tls" then Some(Map(Table(TlsEntries(o.kind.tls))))
            else if o.kind.password != "" && j == "password" then Some(Str(o.kind.password))
            else if o.kind.username != "" && j == "username" then Some(Str(o.kind.username))
            else if j == "type" then Some(Str("http"))
            else FrontField(o, j)
  {
    hide At, Table, When, TlsEntries, TransportEntries, Front, FrontField;
    var k := o.kind;
    FrontAt(o, j);
    var e1 := Front(o) + When(true, "type", Str("http"));
    LookupWhen(Front(o), true, "type", Str("http"), j);
    var e2 := e1 + When(k.username != "", "username", Str(k.username));
    LookupWhen(e1, k.username != "", "username", Str(k.username), j);
    var e3 := e2 + When(k.password != "", "password", Str(k.password));
    LookupWhen(e2, k.password != "", "password", Str(k.password), j);
    TlsPartAt(e3, k.tls, j);
  }

  lemma HttpSeen(o: Outbound)
    requires o.kind.Http? && KindFits(o.kind)
    ensures var ob, k := DecodedFields(Json(o)), o.kind;
            && JText(ob, "username") == k.username && JText(ob, "password") == k.password
            && JMap(ob, "tls") == TlsSeen(k.tls)
  {
    hide At, Table, Trimmed, TrimSpace, TlsEntries, TransportEntries, JText, JInt, JFlag, JMap, DecodedFields, Json,
        TlsFits, TransportFits;
    forall j { HttpJsonAt(o, j); }
    JReadsAll(Json(o));
    TrimmedIsFixed(o.kind.username);
    TrimmedIsFixed(o.kind.password);
  }

  lemma HttpBack(o: Outbound)
    requires o.kind.Http? && KindFits(o.kind)
    ensures var c := BagOf("http", o);
            && KindOf("http", c) == Some(KeptKind(o.kind))
            && CS(c, "server") == o.server && CI(c, "port") == o.port
  {
    hide At, Table, When, Put, Trimmed, JText, JInt, JFlag, JMap, DecodedFields, Json, WithTls, WithTransport,
        SeedEntries, TlsOf, TransportOf, TlsFits, TransportFits, TlsSeen, TransportSeen, KeptTls, CS, CB, CI, CMap,
        TextOf, FlagOf, NumberOf, SubOf;
    var k := o.kind;
    HttpSeen(o);
    var e0 := SeedEntries("http", o.tag, o.server, o.port);
    var e1 := Put(e0, "username", k.username);
    var e2 := Put(e1, "password", k.password);
    forall j
      ensures At(Table(e2), j) ==
              if k.password != "" && j == "password" then Some(Str(k.password))
              else if k.username != "" && j == "username" then Some(Str(k.username))
              else SeedField("http", o, j)
    {
      SeedAt("http", o, j);
      PutAt(e0, "username", k.username, j);
      PutAt(e1, "password", k.password, j);
    }
    TlsBag(e2, k.tls);
    ReadsAll(BagOf("http", o));
  }

  // -- socks5 --

  lemma SocksJsonAt(o: Outbound, j: string)
    requires o.kind.Socks?
    ensures At(Json(o), j) ==
            if o.kind.password != "" && j == "password" then Some(Str(o.kind.password))
            else if o.kind.username != "" && j == "username" then Some(Str(o.kind.username))
            else if j == "version" then Some(Str("5"))
            else if j == "type" then Some(Str("socks"))
            else FrontField(o, j)
  {
    hide At, Table, When, TlsEntries, TransportEntries, Front, FrontField;
    var k := o.kind;
    FrontAt(o, j);
    var e1 := Front(o) + When(true, "type", Str("socks"));
    LookupWhen(Front(o), true, "type", Str("socks"), j);
    var e2 := e1 + When(true, "version", Str("5"));
    LookupWhen(e1, true, "version", Str("5"), j);
    var e3 := e2 + When(k.username != "", "username", Str(k.username));
    LookupWhen(e2, k.username != "", "username", Str(k.username), j);
    var e4 := e3 + When(k.password != "", "password", Str(k.password));
    LookupWhen(e3, k.password != "", "password", Str(k.password), j);
  }

  lemma SocksSeen(o: Outbound)
    requires o.kind.Socks? && KindFits(o.kind)
    ensures var ob, k := DecodedFields(Json(o)), o.kind;
            && JText(ob, "username") == k.username && JText(ob, "password") == k.password
  {
    hide At, Table, Trimmed, TrimSpace, TlsEntries, TransportEntries, JText, JInt, JFlag, JMap, DecodedFields, Json,
        TlsFits, TransportFits;
    forall j { SocksJsonAt(o, j); }
    JReadsAll(Json(o));
    TrimmedIsFixed(o.kind.username);
    TrimmedIsFixed(o.kind.password);
  }

  lemma SocksBack(o: Outbound)
    requires o.kind.Socks? && KindFits(o.kind)
    ensures var c := BagOf("socks5", o);
            && KindOf("socks5", c) == Some(o.kind)
            && CS(c, "server") == o.server && CI(c, "port") == o.port && !CB(c, "tfo")
  {
    hide At, Table, When, Put, Trimmed, JText, JInt, JFlag, JMap, DecodedFields, Json, WithTls, WithTransport,
        SeedEntries, TlsOf, TransportOf, TlsFits, TransportFits, TlsSeen, TransportSeen, KeptTls, CS, CB, CI, CMap,
        TextOf, FlagOf, NumberOf, SubOf;
    var k := o.kind;
    SocksSeen(o);
    var e0 := SeedEntries("socks5", o.tag, o.server, o.port);
    var e1 := Put(e0, "username", k.username);
    var e2 := Put(e1, "password", k.password);
    forall j
      ensures At(Table(e2), j) ==
              if k.password != "" && j == "password" then Some(Str(k.password))
              else if k.username != "" && j == "username" then Some(Str(k.username))
              else SeedField("socks5", o, j)
    {
      SeedAt("socks5", o, j);
      PutAt(e0, "username", k.username, j);
      PutAt(e1, "password", k.password, j);
    }
    ReadsAll(BagOf("socks5", o));
  }

  // -- hysteria --

  lemma HysteriaJsonAt(o: Outbound, j: string)
    requires o.kind.Hysteria?
    ensures At(Json(o), j) ==
            if o.kind.tls.Tls? && j == "tls" then Some(Map(Table(TlsEntries(o.kind.tls))))
            else if o.kind.obfs != "" && j == "obfs" then Some(Str(o.kind.obfs))
            else if o.kind.down > 0 && j == "down_mbps" then Some(Int(o.kind.down))
            else if o.kind.up > 0 && j == "up_mbps" then Some(Int(o.kind.up))
            else if o.kind.auth != "" && j == "auth_str" then Some(Str(o.kind.auth))
            else if j == "type" then Some(Str("hysteria"))
            else FrontField(o, j)
  {
    hide At, Table, When, TlsEntries, TransportEntries, Front, FrontField;
    var k := o.kind;
    FrontAt(o, j);
    var e1 := Front(o) + When(true, "type", Str("hysteria"));
    LookupWhen(Front(o), true, "type", Str("hysteria"), j);
    var e2 := e1 + When(k.auth != "", "auth_str", Str(k.auth));
    LookupWhen(e1, k.auth != "", "auth_str", Str(k.auth), j);
    var e3 := e2 + When(k.up > 0, "up_mbps", Int(k.up));
    LookupWhen(e2, k.up > 0, "up_mbps", Int(k.up), j);
    var e4 := e3 + When(k.down > 0, "down_mbps", Int(k.down));
    LookupWhen(e3, k.down > 0, "down_mbps", Int(k.down), j);
    var e5 := e4 + When(k.obfs != "", "obfs", Str(k.obfs));
    LookupWhen(e4, k.obfs != "", "obfs", Str(k.obfs), j);
    TlsPartAt(e5, k.tls, j);
  }

  lemma HysteriaSeen(o: Outbound)
    requires o.kind.Hysteria? && KindFits(o.kind)
    ensures var ob, k := DecodedFields(Json(o)), o.kind;
            && JText(ob, "auth_str") == k.auth && JText(ob, "obfs") == k.obfs && JMap(ob, "tls") == TlsSeen(k.tls)
            && JInt(ob, "up_mbps") == k.up && JInt(ob, "down_mbps") == k.down
  {
    hide At, Table, Trimmed, TrimSpace, TlsEntries, TransportEntries, JText, JInt, JFlag, JMap, DecodedFields, Json,
        TlsFits, TransportFits;
    forall j { HysteriaJsonAt(o, j); }
    JReadsAll(Json(o));
    TrimmedIsFixed(o.kind.auth);
    TrimmedIsFixed(o.kind.obfs);
  }

  function HysteriaField(o: Outbound, j: string): Option<Value>
    requires o.kind.Hysteria?
  {
    var k := o.kind;
    if k.obfs != "" && j == "obfs" then Some(Str(k.obfs))
    else if k.down > 0 && j == "down" then Some(Str(Itoa(k.down)))
    else if k.up > 0 && j == "up" then Some(Str(Itoa(k.up)))
    else if k.auth != "" && j == "auth-str" then Some(Str(k.auth))
    else SeedField("hysteria", o, j)
  }

  lemma HysteriaPuts(o: Outbound) returns (es: seq<Entry>)
    requires o.kind.Hysteria? && KindFits(o.kind)
    ensures BagOf("hysteria", o) == Table(WithTls(es, TlsSeen(o.kind.tls)))
    ensures forall j :: At(Table(es), j) == HysteriaField(o, j)
  {
    hide At, Table, When, Put, Trimmed, JText, JInt, JMap, DecodedFields, Json, WithTls, SeedEntries, SeedField,
        TlsFits, TlsSeen, Itoa;
    var k := o.kind;
    HysteriaSeen(o);
    var e0 := SeedEntries("hysteria", o.tag, o.server, o.port);
    var e1 := Put(e0, "auth-str", k.auth);
    var e2 := e1 + When(k.up > 0, "up", Str(Itoa(k.up)));
    var e3 := e2 + When(k.down > 0, "down", Str(Itoa(k.down)));
    es := Put(e3, "obfs", k.obfs);
    forall j
      ensures At(Table(es), j) == HysteriaField(o, j)
    {
      SeedAt("hysteria", o, j);
      PutAt(e0, "auth-str", k.auth, j);
      LookupWhen(e1, k.up > 0, "up", Str(Itoa(k.up)), j);
      LookupWhen(e2, k.down > 0, "down", Str(Itoa(k.down)), j);
      PutAt(e3, "obfs", k.obfs, j);
    }
  }

  lemma HysteriaReads(o: Outbound)
    requires o.kind.Hysteria? && KindFits(o.kind)
    ensures var c, k := BagOf("hysteria", o), o.kind;
            && CS(c, "auth-str") == k.auth && CI(c, "up") == k.up && CI(c, "down") == k.down && CS(c, "obfs") == k.obfs
            && TlsOf(c, true) == KeptTls(k.tls)
            && CS(c, "server") == o.server && CI(c, "port") == o.port
  {
    hide At, Table, BagOf, Trimmed, WithTls, TlsOf, TlsFits, TlsSeen, KeptTls, CS, CB, CI, CMap, TextOf, FlagOf,
        NumberOf, SubOf, Itoa;
    var es := HysteriaPuts(o);
    TlsBag(es, o.kind.tls);
    ReadsAll(BagOf("hysteria", o));
    NumberBack(o.kind.up);
    NumberBack(o.kind.down);
  }

  lemma HysteriaBack(o: Outbound)
    requires o.kind.Hysteria? && KindFits(o.kind)
    ensures var c := BagOf("hysteria", o);
            && KindOf("hysteria", c) == Some(KeptKind(o.kind))
            && CS(c, "server") == o.server && CI(c, "port") == o.port
  {
    hide BagOf, KindFits, CS, CI, CB, TlsOf, PluginOf, ReservedOf, KeptTls, At;
    HysteriaReads(o);
    NonNegative(o.kind);
  }

  /** A number printed as text reads as the number. */
  lemma NumberBack(n: int)
    requires 0 <= n <= MAX_INT
    ensures NumberOf(Some(Str(Itoa(n)))) == n
  {
    AtoiItoa(n);
    ItoaChars(n);
    GraphIsTrimmed(Itoa(n));
    hide Itoa, Atoi, TrimSpace;
  }

  lemma NonNegative(k: Kind)
    requires KindFits(k)
    ensures k.Hysteria? ==> k.up >= 0 && k.down >= 0
    ensures k.Hysteria2? && k.obfs == "" ==> k.obfsPassword == ""
  {
    hide Trimmed, TlsFits;
  }

  lemma NothingToTrim()
    ensures TrimSpace("") == ""
  {
  }

  // -- hysteria2 --

  function ObfsTable(obfs: string, password: string): Fields
  {
    Table([] + When(true, "type", Str(obfs)) + When(true, "password", Str(password)))
  }

  lemma ObfsTableAt(obfs: string, password: string, j: string)
    ensures At(ObfsTable(obfs, password), j) ==
            if j == "password" then Some(Str(password)) else if j == "type" then Some(Str(obfs)) else None
  {
    hide At, Table, When;
    LookupNone(j);
    LookupWhen([], true, "type", Str(obfs), j);
    LookupWhen([] + When(true, "type", Str(obfs)), true, "password", Str(password), j);
  }

  lemma Hysteria2JsonAt(o: Outbound, j: string)
    requires o.kind.Hysteria2?
    ensures At(Json(o), j) ==
            if o.kind.tls.Tls? && j == "tls" then Some(Map(Table(TlsEntries(o.kind.tls))))
            else if o.kind.obfs != "" && j == "obfs" then Some(Map(ObfsTable(o.kind.obfs, o.kind.obfsPassword)))
            else if j == "password" then Some(Str(o.kind.password))
            else if j == "type" then Some(Str("hysteria2"))
            else FrontField(o, j)
  {
    hide At, Table, When, TlsEntries, Front, FrontField;
    var k := o.kind;
    FrontAt(o, j);
    var e1 := Front(o) + When(true, "type", Str("hysteria2"));
    var e2 := e1 + When(true, "password", Str(k.password));
    var e3 := e2 + When(k.obfs != "", "obfs", Map(ObfsTable(k.obfs, k.obfsPassword)));
    LookupWhen(Front(o), true, "type", Str("hysteria2"), j);
    LookupWhen(e1, true, "password", Str(k.password), j);
    LookupWhen(e2, k.obfs != "", "obfs", Map(ObfsTable(k.obfs, k.obfsPassword)), j);
    TlsPartAt(e3, k.tls, j);
  }

  lemma Hysteria2Seen(o: Outbound)
    requires o.kind.Hysteria2? && KindFits(o.kind)
    ensures var ob, k := DecodedFields(Json(o)), o.kind;
            && JText(ob, "password") == k.password && JMap(ob, "tls") == TlsSeen(k.tls)
            && JMap(ob, "obfs") == if k.obfs != "" then Some(DecodedFields(ObfsTable(k.obfs, k.obfsPassword))) else None
  {
    hide At, Table, Trimmed, TrimSpace, TlsEntries, TransportEntries, JText, JInt, JFlag, JMap, DecodedFields, Json,
        TlsFits, TransportFits, ObfsTable;
    forall j { Hysteria2JsonAt(o, j); }
    JReadsAll(Json(o));
    TrimmedIsFixed(o.kind.password);
  }

  lemma ObfsSeen(obfs: string, password: string)
    requires Trimmed(obfs) && Trimmed(password)
    ensures var d := DecodedFields(ObfsTable(obfs, password));
            JText(d, "type") == obfs && JText(d, "password") == password
  {
    hide At, Trimmed, TrimSpace, JText, DecodedFields, ObfsTable;
    ObfsTableAt(obfs, password, "type");
    ObfsTableAt(obfs, password, "password");
    JReads(ObfsTable(obfs, password), "type");
    JReads(ObfsTable(obfs, password), "password");
    TrimmedIsFixed(obfs);
    TrimmedIsFixed(password);
  }

  lemma Hysteria2Reads(o: Outbound)
    requires o.kind.Hysteria2? && KindFits(o.kind)
    ensures var c, k := BagOf("hysteria2", o), o.kind;
            && CS(c, "password") == k.password && CS(c, "obfs") == k.obfs && CS(c, "obfs-password") == k.obfsPassword
            && TlsOf(c, true) == KeptTls(k.tls)
            && CS(c, "server") == o.server && CI(c, "port") == o.port
  {
    hide At, Table, When, Put, Trimmed, JText, JInt, JFlag, JMap, DecodedFields, Json, WithTls, WithTransport,
        SeedEntries, TlsOf, TransportOf, TlsFits, TransportFits, TlsSeen, TransportSeen, KeptTls, CS, CB, CI, CMap,
        TextOf, FlagOf, NumberOf, SubOf, ObfsTable;
    var k := o.kind;
    Hysteria2Seen(o);
    ObfsSeen(k.obfs, k.obfsPassword);
    var e0 := SeedEntries("hysteria2", o.tag, o.server, o.port);
    var e1 := Put(e0, "password", k.password);
    var e2 := if k.obfs != "" then Put(Put(e1, "obfs", k.obfs), "obfs-password", k.obfsPassword) else e1;
    forall j
      ensures At(Table(e2), j) ==
              if k.obfsPassword != "" && j == "obfs-password" then Some(Str(k.obfsPassword))
              else if k.obfs != "" && j == "obfs" then Some(Str(k.obfs))
              else if k.password != "" && j == "password" then Some(Str(k.password))
              else SeedField("hysteria2", o, j)
    {
      SeedAt("hysteria2", o, j);
      PutAt(e0, "password", k.password, j);
      PutAt(e1, "obfs", k.obfs, j);
      PutAt(Put(e1, "obfs", k.obfs), "obfs-password", k.obfsPassword, j);
    }
    TlsBag(e2, k.tls);
    ReadsAll(BagOf("hysteria2", o));
  }

  lemma Hysteria2Back(o: Outbound)
    requires o.kind.Hysteria2? && KindFits(o.kind)
    ensures var c := BagOf("hysteria2", o);
            && KindOf("hysteria2", c) == Some(KeptKind(o.kind))
            && CS(c, "server") == o.server && CI(c, "port") == o.port
  {
    hide BagOf, KindFits, CS, CI, CB, TlsOf, PluginOf, ReservedOf, KeptTls, At;
    Hysteria2Reads(o);
    NonNegative(o.kind);
  }

  // -- shadowsocks --

  /** The options map read for a plugin. */
  function PluginNode(p: Plugin): Fields
  {
    match p
    case NoPlugin => map[]
    case Obfs(mode, host) => Table([] + When(true, "mode", Str(mode)) + When(host != "", "host", Str(host)))
    case V2ray(mode, tls, host, path) =>
      Table([] + When(true, "mode", Str(mode)) + When(tls, "tls", Bool(true)) + When(host != "", "host", Str(host))
          + When(path != "", "path", Str(path)))
  }

  lemma PartReads(k: string, v: string)
    requires k != "" && '=' !in k && Trimmed(k) && Trimmed(v) && IsGraph(k[0])
    ensures var cut := Cut(k + "=" + v, '='); cut.found && TrimSpace(cut.before) == k && TrimSpace(cut.after) == v
    ensures TrimSpace(k + "=" + v) == k + "=" + v
  {
    CutAt(k, '=', v);
    assert k + ['='] + v == k + "=" + v;
    hide Cut;
    TrimmedIsFixed(k);
    TrimmedIsFixed(v);
    EndStays(k + "=", v);
    PartIsTrimmed(k + "=" + v);
    hide TrimSpace, Trimmed;
  }

  lemma PartIsTrimmed(s: string)
    requires s != "" && IsGraph(s[0]) && SpaceSuffix(s) == 0
    ensures TrimSpace(s) == s
  {
    hide SpaceSuffix;
    TrimmedIsFixed(s);
  }

  lemma EndStays(p: string, v: string)
    requires p != "" && p[|p| - 1] == '=' && SpaceSuffix(v) == 0
    ensures SpaceSuffix(p + v) == 0
  {
    var s := p + v;
    assert forall k :: |p| <= k < |s| ==> s[k] == v[k - |p|];
    assert s[|p| - 1] == '=';
  }

  predicate IsOptionKey(k: string) { k in {"obfs", "obfs-host", "mode", "host", "path"} }

  lemma OptionKeys(k: string)
    requires IsOptionKey(k)
    ensures k != "" && '=' !in k && ';' !in k && Trimmed(k) && IsGraph(k[0]) && k != "tls"
  {
    GraphIsTrimmed(k);
  }

  lemma ObfsSnoc(parts: seq<string>, b: bool, k: string, key: string, v: string)
    requires (k == "obfs" && key == "mode") || (k == "obfs-host" && key == "host")
    requires Trimmed(v)
    ensures ObfsOptions(parts + if b then [k + "=" + v] else []) ==
            if b then ObfsOptions(parts)[key := Str(v)] else ObfsOptions(parts)
  {
    hide Cut, TrimSpace, Trimmed;
    OptionKeys(k);
    PartReads(k, v);
    if b {
      assert (parts + [k + "=" + v])[..|parts|] == parts;
    } else {
      assert parts + [] == parts;
    }
  }

  lemma V2raySnoc(parts: seq<string>, b: bool, k: string, v: string)
    requires k in {"mode", "host", "path"} && Trimmed(v)
    ensures V2rayOptions(parts + if b then [k + "=" + v] else []) ==
            if b then V2rayOptions(parts)[k := Str(v)] else V2rayOptions(parts)
  {
    hide Cut, TrimSpace, Trimmed;
    OptionKeys(k);
    PartReads(k, v);
    if b {
      assert (parts + [k + "=" + v])[..|parts|] == parts;
      assert k + "=" + v != "tls" by { assert (k + "=" + v)[|k|] == '='; }
    } else {
      assert parts + [] == parts;
    }
  }

  lemma V2rayTls(parts: seq<string>, b: bool)
    ensures V2rayOptions(parts + if b then ["tls"] else []) ==
            if b then V2rayOptions(parts)["tls" := Bool(true)] else V2rayOptions(parts)
  {
    GraphIsTrimmed("tls");
    hide Cut, TrimSpace;
    if b {
      assert (parts + ["tls"])[..|parts|] == parts;
    } else {
      assert parts + [] == parts;
    }
  }

  lemma ObfsRead(mode: string, host: string)
    requires OptionFits(mode) && OptionFits(host)
    ensures ObfsOptions(Split(PluginText(Obfs(mode, host)), ';')) == PluginNode(Obfs(mode, host))
  {
    hide ObfsOptions, Split, Table, When, Trimmed, Join;
    var parts := [] + ["obfs" + "=" + mode] + if host != "" then ["obfs-host" + "=" + host] else [];
    assert "obfs" + "=" == "obfs=" && "obfs-host" + "=" == "obfs-host=";
    assert parts == ["obfs=" + mode] + if host != "" then ["obfs-host=" + host] else [];
    PartsSplit(parts);
    NothingRead();
    ObfsSnoc([], true, "obfs", "mode", mode);
    ObfsSnoc([] + ["obfs" + "=" + mode], host != "", "obfs-host", "host", host);
    var e1 := [] + When(true, "mode", Str(mode));
    TableWhen([], true, "mode", Str(mode));
    TableWhen(e1, host != "", "host", Str(host));
    EmptyTable();
  }

  lemma NothingRead()
    ensures ObfsOptions([]) == map[] && V2rayOptions([]) == map[]
  {
  }

  lemma PartsSplit(parts: seq<string>)
    requires parts != [] && forall i :: 0 <= i < |parts| ==> ';' !in parts[i]
    ensures Split(Join(parts, ";"), ';') == parts
  {
    SplitJoin(parts, ';');
  }

  lemma V2rayRead(mode: string, tls: bool, host: string, path: string)
    requires OptionFits(mode) && OptionFits(host) && OptionFits(path)
    ensures V2rayOptions(Split(PluginText(V2ray(mode, tls, host, path)), ';')) ==
            PluginNode(V2ray(mode, tls, host, path))
  {
    hide V2rayOptions, Split, Table, When, Trimmed, Join;
    var p1 := [] + ["mode" + "=" + mode];
    var p2 := p1 + if tls then ["tls"] else [];
    var p3 := p2 + if host != "" then ["host" + "=" + host] else [];
    var parts := p3 + if path != "" then ["path" + "=" + path] else [];
    assert "mode" + "=" == "mode=" && "host" + "=" == "host=" && "path" + "=" == "path=";
    assert parts == ["mode=" + mode] + (if tls then ["tls"] else []) + (if host != "" then ["host=" + host] else [])
        + if path != "" then ["path=" + path] else [];
    PartsSplit(parts);
    NothingRead();
    V2raySnoc([], true, "mode", mode);
    V2rayTls(p1, tls);
    V2raySnoc(p2, host != "", "host", host);
    V2raySnoc(p3, path != "", "path", path);
    var e1 := [] + When(true, "mode", Str(mode));
    var e2 := e1 + When(tls, "tls", Bool(true));
    var e3 := e2 + When(host != "", "host", Str(host));
    TableWhen([], true, "mode", Str(mode));
    TableWhen(e1, tls, "tls", Bool(true));
    TableWhen(e2, host != "", "host", Str(host));
    TableWhen(e3, path != "", "path", Str(path));
    EmptyTable();
  }

  lemma ObfsNodeReads(mode: string, host: string)
    ensures var m := PluginNode(Obfs(mode, host)); CS(m, "mode") == mode && CS(m, "host") == host
  {
    hide Table, CS, At;
    var m := PluginNode(Obfs(mode, host));
    ObfsNodeAt(mode, host, "mode");
    ObfsNodeAt(mode, host, "host");
    hide PluginNode;
    ReadsAt(m, "mode");
    ReadsAt(m, "host");
    hide TextOf, FlagOf, SubOf, NumberOf;
    ReadsPlain(mode, true, 0, map[]);
    ReadsPlain(host, true, 0, map[]);
  }

  lemma ObfsNodeAt(mode: string, host: string, j: string)
    ensures At(PluginNode(Obfs(mode, host)), j) ==
            if host != "" && j == "host" then Some(Str(host)) else if j == "mode" then Some(Str(mode)) else None
  {
    hide At, Table, When;
    LookupNone(j);
    LookupWhen([], true, "mode", Str(mode), j);
    LookupWhen([] + When(true, "mode", Str(mode)), host != "", "host", Str(host), j);
  }

  lemma V2rayNodeReads(mode: string, tls: bool, host: string, path: string)
    ensures var m := PluginNode(V2ray(mode, tls, host, path));
            CS(m, "mode") == mode && CB(m, "tls") == tls && CS(m, "host") == host && CS(m, "path") == path
  {
    hide Table, CS, CB, At;
    var m := PluginNode(V2ray(mode, tls, host, path));
    V2rayNodeAt(mode, tls, host, path, "mode");
    V2rayNodeAt(mode, tls, host, path, "tls");
    V2rayNodeAt(mode, tls, host, path, "host");
    V2rayNodeAt(mode, tls, host, path, "path");
    hide PluginNode;
    ReadsAt(m, "mode");
    ReadsAt(m, "tls");
    ReadsAt(m, "host");
    ReadsAt(m, "path");
    hide TextOf, FlagOf, SubOf, NumberOf;
    ReadsPlain(mode, true, 0, map[]);
    ReadsPlain(host, true, 0, map[]);
    ReadsPlain(path, true, 0, map[]);
  }

  lemma V2rayNodeAt(mode: string, tls: bool, host: string, path: string, j: string)
    ensures At(PluginNode(V2ray(mode, tls, host, path)), j) ==
            if path != "" && j == "path" then Some(Str(path))
            else if host != "" && j == "host" then Some(Str(host))
            else if tls && j == "tls" then Some(Bool(true))
            else if j == "mode" then Some(Str(mode)) else None
  {
    hide At, Table, When;
    LookupNone(j);
    var e1 := [] + When(true, "mode", Str(mode));
    var e2 := e1 + When(tls, "tls", Bool(true));
    var e3 := e2 + When(host != "", "host", Str(host));
    LookupWhen([], true, "mode", Str(mode), j);
    LookupWhen(e1, tls, "tls", Bool(true), j);
    LookupWhen(e2, host != "", "host", Str(host), j);
    LookupWhen(e3, path != "", "path", Str(path), j);
  }

  function PluginName(p: Plugin): string
  {
    if p.NoPlugin? then "" else if p.Obfs? then "obfs-local" else "v2ray-plugin"
  }

  function PluginField(p: Plugin, j: string): Option<Value>
  {
    if p.NoPlugin? then None
    else if j == "plugin-opts" then Some(Map(PluginNode(p)))
    else if j == "plugin" then Some(Str(if p.Obfs? then "obfs" else "v2ray-plugin"))
    else None
  }

  lemma WithPluginAt(es: seq<Entry>, p: Plugin, j: string)
    requires PluginFits(p)
    ensures At(Table(WithPlugin(es, PluginName(p), PluginText(p))), j) == Over(PluginField(p, j), At(Table(es), j))
  {
    hide At, Table, When, Split, PluginText, ObfsOptions, V2rayOptions, PluginNode, OptionFits;
    match p {
      case NoPlugin =>
      case Obfs(mode, host) =>
        ObfsRead(mode, host);
        PluginTwo(es, "obfs", PluginNode(p), j);
      case V2ray(mode, tls, host, path) =>
        V2rayRead(mode, tls, host, path);
        PluginTwo(es, "v2ray-plugin", PluginNode(p), j);
    }
  }

  lemma PluginTwo(es: seq<Entry>, name: string, o: Fields, j: string)
    ensures At(Table(es + When(true, "plugin", Str(name)) + When(true, "plugin-opts", Map(o))), j) ==
            if j == "plugin-opts" then Some(Map(o)) else if j == "plugin" then Some(Str(name)) else At(Table(es), j)
  {
    hide At, Table, When;
    LookupWhen(es, true, "plugin", Str(name), j);
    LookupWhen(es + When(true, "plugin", Str(name)), true, "plugin-opts", Map(o), j);
  }

  lemma PluginBack(c: Fields, p: Plugin)
    requires PluginFits(p) && At(c, "plugin") == PluginField(p, "plugin")
            && At(c, "plugin-opts") == PluginField(p, "plugin-opts")
    ensures PluginOf(c) == p
  {
    hide At, CS, CB, CMap, PluginNode, OptionFits;
    ReadsAt(c, "plugin");
    ReadsAt(c, "plugin-opts");
    ReadsPlain("obfs", true, 0, PluginNode(p));
    ReadsPlain("v2ray-plugin", true, 0, PluginNode(p));
    hide TextOf, SubOf;
    match p {
      case NoPlugin =>
      case Obfs(mode, host) => ObfsNodeReads(mode, host);
      case V2ray(mode, tls, host, path) => V2rayNodeReads(mode, tls, host, path);
    }
  }

  lemma SSJsonAt(o: Outbound, j: string)
    requires o.kind.SS?
    ensures At(Json(o), j) ==
            if !o.kind.plugin.NoPlugin? && j == "plugin_opts" then Some(Str(PluginText(o.kind.plugin)))
            else if !o.kind.plugin.NoPlugin? && j == "plugin" then Some(Str(PluginName(o.kind.plugin)))
            else if j == "password" then Some(Str(o.kind.password))
            else if j == "method" then Some(Str(o.kind.cipher))
            else if j == "type" then Some(Str("shadowsocks"))
            else FrontField(o, j)
  {
    hide At, Table, When, Front, FrontField, PluginText;
    var k := o.kind;
    var b := !k.plugin.NoPlugin?;
    FrontAt(o, j);
    var e1 := Front(o) + When(true, "type", Str("shadowsocks"));
    var e2 := e1 + When(true, "method", Str(k.cipher));
    var e3 := e2 + When(true, "password", Str(k.password));
    var e4 := e3 + When(b, "plugin", Str(if k.plugin.Obfs? then "obfs-local" else "v2ray-plugin"));
    LookupWhen(Front(o), true, "type", Str("shadowsocks"), j);
    LookupWhen(e1, true, "method", Str(k.cipher), j);
    LookupWhen(e2, true, "password", Str(k.password), j);
    LookupWhen(e3, b, "plugin", Str(if k.plugin.Obfs? then "obfs-local" else "v2ray-plugin"), j);
    LookupWhen(e4, b, "plugin_opts", Str(PluginText(k.plugin)), j);
  }

  lemma PluginTextIsTrimmed(p: Plugin)
    requires PluginFits(p)
    ensures TrimSpace(PluginText(p)) == PluginText(p) && TrimSpace(PluginName(p)) == PluginName(p)
    ensures p.NoPlugin? ==> PluginText(p) == ""
  {
    match p {
      case NoPlugin => NothingToTrim();
      case Obfs(mode, host) =>
        LastEnds("obfs=", mode);
        LastEnds("obfs-host=", host);
        GraphIsTrimmed("obfs-local");
        hide Trimmed, TrimSpace, SpaceSuffix;
        if host == "" {
          assert ["obfs=" + mode] + [] == ["obfs=" + mode];
          PartsEnd(["obfs=" + mode]);
        } else {
          PartsEnd(["obfs=" + mode] + ["obfs-host=" + host]);
        }
      case V2ray(mode, tls, host, path) =>
        LastEnds("mode=", mode);
        LastEnds("host=", host);
        LastEnds("path=", path);
        GraphIsTrimmed("v2ray-plugin");
        TlsEnds();
        hide Trimmed, TrimSpace, SpaceSuffix;
        PartsEnd(["mode=" + mode] + (if tls then ["tls"] else []) + (if host != "" then ["host=" + host] else [])
            + if path != "" then ["path=" + path] else []);
    }
  }

  lemma TlsEnds()
    ensures SpaceSuffix("tls") == 0
  {
  }

  lemma LastEnds(p: string, v: string)
    requires p != "" && p[|p| - 1] == '=' && Trimmed(v)
    ensures SpaceSuffix(p + v) == 0
  {
    EndStays(p, v);
  }

  /** Parts that start and end cleanly join to a trimmed text. */
  lemma PartsEnd(parts: seq<string>)
    requires parts != [] && parts[0] != "" && IsGraph(parts[0][0])
    requires forall i :: 0 <= i < |parts| ==> SpaceSuffix(parts[i]) == 0
    ensures TrimSpace(Join(parts, ";")) == Join(parts, ";")
  {
    JoinStartsEnds(parts);
    hide Join, SpaceSuffix;
    PartIsTrimmed(Join(parts, ";"));
  }

  lemma {:induction false} JoinStartsEnds(parts: seq<string>)
    requires parts != [] && parts[0] != "" && forall i :: 0 <= i < |parts| ==> SpaceSuffix(parts[i]) == 0
    ensures var t := Join(parts, ";"); t != "" && t[0] == parts[0][0] && SpaceSuffix(t) == 0
  {
    if |parts| > 1 {
      var n := |parts| - 1;
      JoinStartsEnds(parts[..n]);
      JoinSnoc(parts[..n], parts[n], ";");
      assert parts == parts[..n] + [parts[n]];
      AfterSemicolon(Join(parts[..n], ";") + ";", parts[n]);
    }
    hide SpaceSuffix;
  }

  lemma AfterSemicolon(p: string, v: string)
    requires p != "" && p[|p| - 1] == ';' && SpaceSuffix(v) == 0
    ensures SpaceSuffix(p + v) == 0
  {
    var s := p + v;
    assert forall k :: |p| <= k < |s| ==> s[k] == v[k - |p|];
    assert s[|p| - 1] == ';';
  }

  lemma SSSeen(o: Outbound)
    requires o.kind.SS? && KindFits(o.kind)
    ensures var ob, k := DecodedFields(Json(o)), o.kind;
            && JText(ob, "method") == k.cipher && JText(ob, "password") == k.password
            && JFlag(ob, "tcp_fast_open") == o.tfo
            && JText(ob, "plugin") == PluginName(k.plugin) && JText(ob, "plugin_opts") == PluginText(k.plugin)
  {
    hide At, Table, Trimmed, TrimSpace, JText, JInt, JFlag, JMap, DecodedFields, Json, PluginFits, PluginText;
    forall j { SSJsonAt(o, j); }
    JReadsAll(Json(o));
    TrimmedIsFixed(o.kind.cipher);
    TrimmedIsFixed(o.kind.password);
    PluginTextIsTrimmed(o.kind.plugin);
  }

  lemma SSBagAt(o: Outbound, j: string)
    requires o.kind.SS? && KindFits(o.kind)
    ensures At(BagOf("ss", o), j) ==
            Over(PluginField(o.kind.plugin, j),
              if o.tfo && j == "tfo" then Some(Bool(true))
              else if o.kind.password != "" && j == "password" then Some(Str(o.kind.password))
              else if o.kind.cipher != "" && j == "cipher" then Some(Str(o.kind.cipher))
              else SeedField("ss", o, j))
  {
    hide At, Table, When, Put, Trimmed, JText, JFlag, DecodedFields, Json, SeedEntries, SeedField, Over, PluginField,
        WithPlugin, PluginFits, PluginText, PluginName;
    var k := o.kind;
    SSSeen(o);
    var e0 := SeedEntries("ss", o.tag, o.server, o.port);
    SeedAt("ss", o, j);
    var e1 := Put(e0, "cipher", k.cipher);
    var e2 := Put(e1, "password", k.password);
    PutAt(e0, "cipher", k.cipher, j);
    PutAt(e1, "password", k.password, j);
    LookupWhen(e2, o.tfo, "tfo", Bool(true), j);
    WithPluginAt(e2 + When(o.tfo, "tfo", Bool(true)), k.plugin, j);
  }

  lemma SSReads(o: Outbound)
    requires o.kind.SS? && KindFits(o.kind)
    ensures var c, k := BagOf("ss", o), o.kind;
            && CS(c, "cipher") == k.cipher && CS(c, "password") == k.password && PluginOf(c) == k.plugin
            && CS(c, "server") == o.server && CI(c, "port") == o.port && CB(c, "tfo") == o.tfo
  {
    hide At, BagOf, Trimmed, PluginFits, PluginOf, PluginNode, CS, CB, CI, CMap, TextOf, FlagOf, NumberOf, SubOf;
    SSBagAt(o, "cipher");
    SSBagAt(o, "password");
    SSBagAt(o, "tfo");
    SSBagAt(o, "server");
    SSBagAt(o, "port");
    SSBagAt(o, "plugin");
    SSBagAt(o, "plugin-opts");
    PluginBack(BagOf("ss", o), o.kind.plugin);
    ReadsAll(BagOf("ss", o));
  }

  lemma SSBack(o: Outbound)
    requires o.kind.SS? && KindFits(o.kind)
    ensures var c := BagOf("ss", o);
            && KindOf("ss", c) == Some(o.kind)
            && CS(c, "server") == o.server && CI(c, "port") == o.port && CB(c, "tfo") == o.tfo
  {
    hide BagOf, KindFits, CS, CI, CB, TlsOf, PluginOf, ReservedOf, KeptTls, At;
    SSReads(o);
  }

  // -- wireguard --

  lemma WireGuardJsonAt(o: Outbound, j: string)
    requires o.kind.WireGuard?
    ensures At(Json(o), j) ==
            if o.kind.reserved != [] && j == "reserved" then Some(Ints(o.kind.reserved))
            else if o.kind.mtu > 0 && j == "mtu" then Some(Int(o.kind.mtu))
            else if (o.kind.ip != "" || o.kind.ipv6 != "")
                && j == "local_address" then Some(Strs(Addresses(o.kind.ip, o.kind.ipv6)))
            else if o.kind.sharedKey != "" && j == "pre_shared_key" then Some(Str(o.kind.sharedKey))
            else if j == "peer_public_key" then Some(Str(o.kind.publicKey))
            else if j == "private_key" then Some(Str(o.kind.privateKey))
            else if j == "type" then Some(Str("wireguard"))
            else FrontField(o, j)
  {
    hide At, Table, When, Front, FrontField, Addresses;
    var k := o.kind;
    var any, list := k.ip != "" || k.ipv6 != "", Addresses(k.ip, k.ipv6);
    FrontAt(o, j);
    var e1 := Front(o) + When(true, "type", Str("wireguard"));
    var e2 := e1 + When(true, "private_key", Str(k.privateKey));
    var e3 := e2 + When(true, "peer_public_key", Str(k.publicKey));
    var e4 := e3 + When(k.sharedKey != "", "pre_shared_key", Str(k.sharedKey));
    var e5 := e4 + When(any, "local_address", Strs(list));
    var e6 := e5 + When(k.mtu > 0, "mtu", Int(k.mtu));
    LookupWhen(Front(o), true, "type", Str("wireguard"), j);
    LookupWhen(e1, true, "private_key", Str(k.privateKey), j);
    LookupWhen(e2, true, "peer_public_key", Str(k.publicKey), j);
    LookupWhen(e3, k.sharedKey != "", "pre_shared_key", Str(k.sharedKey), j);
    LookupWhen(e4, any, "local_address", Strs(list), j);
    LookupWhen(e5, k.mtu > 0, "mtu", Int(k.mtu), j);
    LookupWhen(e6, k.reserved != [], "reserved", Ints(k.reserved), j);
  }

  lemma WireGuardSeen(o: Outbound)
    requires o.kind.WireGuard? && KindFits(o.kind)
    ensures var ob, k := DecodedFields(Json(o)), o.kind;
            && JText(ob, "private_key") == k.privateKey && JText(ob, "peer_public_key") == k.publicKey
            && JText(ob, "pre_shared_key") == k.sharedKey && JInt(ob, "mtu") == k.mtu
  {
    hide At, Table, Trimmed, TrimSpace, JText, JInt, DecodedFields, Json, AddressFits, Addresses;
    forall j { WireGuardJsonAt(o, j); }
    JReadsAll(Json(o));
    TrimmedIsFixed(o.kind.privateKey);
    TrimmedIsFixed(o.kind.publicKey);
    TrimmedIsFixed(o.kind.sharedKey);
  }

  lemma WireGuardLists(o: Outbound)
    requires o.kind.WireGuard?
    ensures var ob, k := DecodedFields(Json(o)), o.kind;
            && ListAt(ob, "local_address") == StrItems(Addresses(k.ip, k.ipv6))
            && IntsOf(ListAt(ob, "reserved")) == k.reserved && (ListAt(ob, "reserved") == [] <==> k.reserved == [])
  {
    hide Decoded, DecodedFields, Json, Addresses;
    var k := o.kind;
    WireGuardJsonAt(o, "local_address");
    WireGuardJsonAt(o, "reserved");
    LookupDecoded(Json(o), "local_address");
    LookupDecoded(Json(o), "reserved");
    DecodedStrs(Addresses(k.ip, k.ipv6));
    IntsBack(k.reserved);
    NoAddresses(k.ip, k.ipv6);
  }

  lemma NoAddresses(ip: string, ipv6: string)
    ensures ip == "" && ipv6 == "" ==> Addresses(ip, ipv6) == []
  {
  }

  lemma IntsBack(ns: seq<int>)
    ensures Decoded(Ints(ns)).List? && IntsOf(Decoded(Ints(ns)).items) == ns
  {
    var items := Decoded(Ints(ns)).items;
    assert |items| == |ns|;
    assert forall i :: 0 <= i < |ns| ==> IntsOf(items)[i] == ns[i];
  }

  /** An address without its default prefix length is never empty, and gets it back. */
  lemma AddressBack(a: string, suffix: string)
    requires AddressFits(a, suffix) && a != "" && suffix != "" && suffix[0] == '/'
    ensures TrimSuffix(a, suffix) != "" && WithPrefix(TrimSuffix(a, suffix), suffix) == a
  {
    if HasSuffix(a, suffix) {
      var n := |a| - |suffix|;
      assert a == a[..n] + a[n..];
    }
    hide Trimmed;
  }

  lemma AddressesAt(es: seq<Entry>, ip: string, ipv6: string, j: string)
    requires AddressFits(ip, "/32") && ':' !in ip && AddressFits(ipv6, "/128") && (ipv6 != "" ==> ':' in ipv6)
    ensures At(Table(AddressesIn(es, StrItems(Addresses(ip, ipv6)))), j) ==
            if ipv6 != "" && j == "ipv6" then Some(Str(TrimSuffix(ipv6, "/128")))
            else if ip != "" && j == "ip" then Some(Str(TrimSuffix(ip, "/32")))
            else At(Table(es), j)
  {
    hide At, Table, Put, TrimSuffix, Trimmed, TrimSpace;
    if ip != "" {
      AddressBack(ip, "/32");
      TrimmedIsFixed(ip);
    }
    if ipv6 != "" {
      AddressBack(ipv6, "/128");
      TrimmedIsFixed(ipv6);
    }
    hide AddressFits;
    var e1 := if ip != "" then Put(es, "ip", TrimSuffix(ip, "/32")) else es;
    PutAt(es, "ip", TrimSuffix(ip, "/32"), j);
    PutAt(e1, "ipv6", TrimSuffix(ipv6, "/128"), j);
    AddressOne(es, ip);
    AddressTwo(es, ip, ipv6);
  }

  lemma AddressOne(es: seq<Entry>, ip: string)
    requires ip != "" ==> ':' !in ip && TrimSpace(ip) == ip
    ensures AddressesIn(es, StrItems(if ip != "" then [ip] else [])) ==
            if ip != "" then Put(es, "ip", TrimSuffix(ip, "/32")) else es
  {
    hide TrimSpace, Put, TrimSuffix;
    if ip != "" {
      assert StrItems([ip]) == [Str(ip)] && [Str(ip)][..0] == [];
    }
  }

  lemma AddressTwo(es: seq<Entry>, ip: string, ipv6: string)
    requires ipv6 != "" ==> ':' in ipv6 && TrimSpace(ipv6) == ipv6
    ensures var e1 := AddressesIn(es, StrItems(if ip != "" then [ip] else []));
            AddressesIn(es, StrItems(Addresses(ip, ipv6))) ==
                if ipv6 != "" then Put(e1, "ipv6", TrimSuffix(ipv6, "/128")) else e1
  {
    hide TrimSpace, Put, TrimSuffix;
    var front := if ip != "" then [ip] else [];
    if ipv6 != "" {
      assert StrItems(front + [ipv6]) == StrItems(front) + [Str(ipv6)];
      assert (StrItems(front) + [Str(ipv6)])[..|front|] == StrItems(front);
    } else {
      assert Addresses(ip, ipv6) == front;
    }
  }

  lemma WireGuardBagAt(o: Outbound, j: string)
    requires o.kind.WireGuard? && KindFits(o.kind)
    ensures At(BagOf("wireguard", o), j) ==
            if o.kind.reserved != [] && j == "reserved" then Some(Ints(o.kind.reserved))
            else if o.kind.mtu > 0 && j == "mtu" then Some(Int(o.kind.mtu))
            else if o.kind.ipv6 != "" && j == "ipv6" then Some(Str(TrimSuffix(o.kind.ipv6, "/128")))
            else if o.kind.ip != "" && j == "ip" then Some(Str(TrimSuffix(o.kind.ip, "/32")))
            else if o.kind.sharedKey != "" && j == "pre-shared-key" then Some(Str(o.kind.sharedKey))
            else if o.kind.publicKey != "" && j == "public-key" then Some(Str(o.kind.publicKey))
            else if o.kind.privateKey != "" && j == "private-key" then Some(Str(o.kind.privateKey))
            else SeedField("wireguard", o, j)
  {
    hide At, Table, When, Trimmed, JText, JInt, DecodedFields, Json, Put, SeedEntries, SeedField, AddressFits,
        AddressesIn, Addresses, TrimSuffix, ListAt, IntsOf, StrItems;
    var k := o.kind;
    WireGuardSeen(o);
    WireGuardLists(o);
    var e0 := SeedEntries("wireguard", o.tag, o.server, o.port);
    SeedAt("wireguard", o, j);
    var e1 := Put(e0, "private-key", k.privateKey);
    var e2 := Put(e1, "public-key", k.publicKey);
    var e3 := Put(e2, "pre-shared-key", k.sharedKey);
    var e4 := AddressesIn(e3, StrItems(Addresses(k.ip, k.ipv6)));
    var e5 := e4 + When(k.mtu > 0, "mtu", Int(k.mtu));
    PutAt(e0, "private-key", k.privateKey, j);
    PutAt(e1, "public-key", k.publicKey, j);
    PutAt(e2, "pre-shared-key", k.sharedKey, j);
    AddressesAt(e3, k.ip, k.ipv6, j);
    LookupWhen(e4, k.mtu > 0, "mtu", Int(k.mtu), j);
    LookupWhen(e5, k.reserved != [], "reserved", Ints(k.reserved), j);
  }

  lemma WireGuardReads(o: Outbound)
    requires o.kind.WireGuard? && KindFits(o.kind)
    ensures var c, k := BagOf("wireguard", o), o.kind;
            && CS(c, "private-key") == k.privateKey && CS(c, "public-key") == k.publicKey
            && CS(c, "pre-shared-key") == k.sharedKey && CI(c, "mtu") == k.mtu
            && ReservedOf(At(c, "reserved")) == k.reserved
            && CS(c, "ip") == (if k.ip != "" then TrimSuffix(k.ip, "/32") else "")
            && CS(c, "ipv6") == (if k.ipv6 != "" then TrimSuffix(k.ipv6, "/128") else "")
            && CS(c, "server") == o.server && CI(c, "port") == o.port
  {
    hide At, BagOf, Trimmed, CS, CI, CB, CMap, TextOf, FlagOf, NumberOf, SubOf, TrimSuffix, AddressFits, ReservedOf;
    var k := o.kind;
    WireGuardBagAt(o, "private-key");
    WireGuardBagAt(o, "public-key");
    WireGuardBagAt(o, "pre-shared-key");
    WireGuardBagAt(o, "ip");
    WireGuardBagAt(o, "ipv6");
    WireGuardBagAt(o, "mtu");
    WireGuardBagAt(o, "reserved");
    WireGuardBagAt(o, "server");
    WireGuardBagAt(o, "port");
    ReadsAll(BagOf("wireguard", o));
    ReservedReads(k.reserved);
  }

  lemma WireGuardBack(o: Outbound)
    requires o.kind.WireGuard? && KindFits(o.kind)
    ensures var c := BagOf("wireguard", o);
            && KindOf("wireguard", c) == Some(o.kind)
            && CS(c, "server") == o.server && CI(c, "port") == o.port
  {
    hide BagOf, KindFits, CS, CI, CB, TlsOf, PluginOf, ReservedOf, KeptTls, At;
    hide Trimmed, TrimSuffix;
    var k := o.kind;
    WireGuardReads(o);
    AddressesFit(k);
    if k.ip != "" { AddressBack(k.ip, "/32"); }
    if k.ipv6 != "" { AddressBack(k.ipv6, "/128"); }
    EmptyPrefix();
    hide WithPrefix, AddressFits;
  }

  lemma AddressesFit(k: Kind)
    requires k.WireGuard? && KindFits(k)
    ensures AddressFits(k.ip, "/32") && AddressFits(k.ipv6, "/128") && k.mtu >= 0
  {
    hide AddressFits, Trimmed;
  }

  lemma EmptyPrefix()
    ensures WithPrefix("", "/32") == "" && WithPrefix("", "/128") == ""
  {
  }

  lemma ReservedReads(reserved: seq<int>)
    ensures ReservedOf(Some(Ints(reserved))) == reserved && ReservedOf(None) == []
  {
  }

  // ---------- the fixed point ----------

  /** An outbound with values the reader takes back as they are. */
  predicate Fits(o: Outbound)
  {
    && Trimmed(o.tag) && Trimmed(o.server) && KindFits(o.kind)
    && (!o.kind.WireGuard? ==> o.tag != "" && o.server != "" && o.port != 0)
    && (o.tfo ==> PrintsTfo(TypeOf(o.kind)))
  }

  function KeptKind(k: Kind): Kind
  {
    match k
    case VMess(uuid, alterId, security, transport, tls) => VMess(uuid, alterId, security, transport, KeptTls(tls))
    case VLess(uuid, flow, transport, tls) => VLess(uuid, flow, transport, KeptTls(tls))
    case Trojan(password, transport, tls) => Trojan(password, transport, KeptTls(tls))
    case Hysteria2(password, obfs, obfsPassword, tls) => Hysteria2(password, obfs, obfsPassword, KeptTls(tls))
    case Tuic(uuid, password, congestion, tls) => Tuic(uuid, password, congestion, KeptTls(tls))
    case Http(username, password, tls) => Http(username, password, KeptTls(tls))
    case Hysteria(auth, up, down, obfs, tls) => Hysteria(auth, up, down, obfs, KeptTls(tls))
    case _ => k
  }

  /** What of an outbound comes back: all but a blank reality object and the TCP fast open of socks. */
  function Kept(o: Outbound): Outbound { o.(tfo := o.tfo && !o.kind.Socks?, kind := KeptKind(o.kind)) }

  function TypeOf(k: Kind): string
  {
    match k
    case SS(_, _, _) => "ss"
    case VMess(_, _, _, _, _) => "vmess"
    case VLess(_, _, _, _) => "vless"
    case Trojan(_, _, _) => "trojan"
    case Hysteria2(_, _, _, _) => "hysteria2"
    case Tuic(_, _, _, _) => "tuic"
    case Socks(_, _) => "socks5"
    case Http(_, _, _) => "http"
    case WireGuard(_, _, _, _, _, _, _) => "wireguard"
    case Hysteria(_, _, _, _, _) => "hysteria"
  }

  function JsonTypeOf(k: Kind): string { if k.SS? then "shadowsocks" else if k.Socks? then "socks" else TypeOf(k) }

  function TlsIn(k: Kind): Tls
  {
    match k
    case VMess(_, _, _, _, tls) => tls
    case VLess(_, _, _, tls) => tls
    case Trojan(_, _, tls) => tls
    case Hysteria2(_, _, _, tls) => tls
    case Tuic(_, _, _, tls) => tls
    case Http(_, _, tls) => tls
    case Hysteria(_, _, _, _, tls) => tls
    case _ => NoTls
  }

  /** What stands under the keys that every object has, and under tls. */
  function CommonField(o: Outbound, j: string): Option<Value>
  {
    if j == "type" then Some(Str(JsonTypeOf(o.kind)))
    else if j == "tls" then if TlsIn(o.kind).Tls? then Some(Map(Table(TlsEntries(TlsIn(o.kind))))) else None
    else FrontField(o, j)
  }

  lemma CommonAt(o: Outbound, j: string)
    requires j in {"type", "tag", "server", "server_port", "tls"}
    ensures At(Json(o), j) == CommonField(o, j)
  {
    hide At, Json, Table, TlsEntries, TransportEntries, ObfsTable, PluginName, PluginText, Addresses;
    match o.kind {
      case SS(_, _, _) => SSJsonAt(o, j);
      case VMess(_, _, _, _, _) => VMessJsonAt(o, j);
      case VLess(_, _, _, _) => VLessJsonAt(o, j);
      case Trojan(_, _, _) => TrojanJsonAt(o, j);
      case Hysteria2(_, _, _, _) => Hysteria2JsonAt(o, j);
      case Tuic(_, _, _, _) => TuicJsonAt(o, j);
      case Socks(_, _) => SocksJsonAt(o, j);
      case Http(_, _, _) => HttpJsonAt(o, j);
      case WireGuard(_, _, _, _, _, _, _) => WireGuardJsonAt(o, j);
      case Hysteria(_, _, _, _, _) => HysteriaJsonAt(o, j);
    }
  }

  lemma CommonInJson(o: Outbound)
    ensures var m, t := Json(o), TlsIn(o.kind);
            && At(m, "type") == Some(Str(JsonTypeOf(o.kind))) && At(m, "tag") == Some(Str(o.tag))
            && At(m, "server") == Some(Str(o.server)) && At(m, "server_port") == Some(Int(o.port))
            && At(m, "tls") == if t.Tls? then Some(Map(Table(TlsEntries(t)))) else None
  {
    hide At, Json, Table, TlsEntries, TlsIn, JsonTypeOf;
    CommonAt(o, "type");
    CommonAt(o, "tag");
    CommonAt(o, "server");
    CommonAt(o, "server_port");
    CommonAt(o, "tls");
  }

  lemma BagBack(o: Outbound)
    requires Fits(o)
    ensures var c := BagOf(TypeOf(o.kind), o);
            && KindOf(TypeOf(o.kind), c) == Some(KeptKind(o.kind)) && CS(c, "server") == o.server
            && CI(c, "port") == o.port
            && (CB(c, "tfo") && PrintsTfo(TypeOf(o.kind))) == Kept(o).tfo
    ensures CommonSeen(o, JsonTypeOf(o.kind))
  {
    hide BagOf, CS, CI, CB, KindOf, KindFits, CommonSeen, Trimmed, Json, At;
    CommonInJson(o);
    TypeIsTrimmed(o.kind);
    CommonRead(o, JsonTypeOf(o.kind));
    match o.kind {
      case SS(_, _, _) => SSBack(o);
      case VMess(_, _, _, _, _) => VMessBack(o);
      case VLess(_, _, _, _) => VLessBack(o);
      case Trojan(_, _, _) => TrojanBack(o);
      case Hysteria2(_, _, _, _) => Hysteria2Back(o);
      case Tuic(_, _, _, _) => TuicBack(o);
      case Socks(_, _) => SocksBack(o);
      case Http(_, _, _) => HttpBack(o);
      case WireGuard(_, _, _, _, _, _, _) => WireGuardBack(o);
      case Hysteria(_, _, _, _, _) => HysteriaBack(o);
    }
  }

  lemma TypeIsTrimmed(k: Kind)
    ensures Trimmed(JsonTypeOf(k))
  {
    hide Trimmed, TrimSpace;
    GraphIsTrimmed(JsonTypeOf(k));
  }

  lemma TypeReads(k: Kind)
    ensures ClashType(ToLower(JsonTypeOf(k))) == TypeOf(k) && (ToLower(JsonTypeOf(k)) == "wireguard" <==> k.WireGuard?)
    ensures ToLower(JsonTypeOf(k)) == JsonTypeOf(k)
  {
    var t := JsonTypeOf(k);
    assert forall i :: 0 <= i < |t| ==> LowerChar(t[i]) == t[i];
    assert ToLower(t) == t;
  }

  /** Printed, decoded and read, an outbound gives a node that says what the reader keeps of it. */
  lemma OutboundBack(o: Outbound)
    requires Fits(o)
    ensures var p := OutboundRead(DecodedFields(Json(o)));
            p.Some? && p.value.name == o.tag && p.value.typ == TypeOf(o.kind) && OutboundOf(p.value) == Some(Kept(o))
  {
    BagBack(o);
    TypeReads(o.kind);
    hide CS, CI, CB, KindOf, KindFits, DecodedFields, JText, JInt, Trimmed, Json, TypeOf, JsonTypeOf, ClashType,
        ToLower, NodeEntries, SeedEntries, Table,
      PrintsTfo;
  }

  /** The object printed for a node of the ten protocols. */
  function Rendered(n: Node): Option<Fields>
  {
    var o := OutboundOf(n);
    if o.Some? then Some(Json(o.value)) else None
  }

  /** The reader keeps all of it: no blank reality object, and no TCP fast open of socks. */
  predicate IsKept(o: Outbound) { !(o.kind.Socks? && o.tfo) && !IsBlank(TlsIn(o.kind)) }

  lemma KeptIff(o: Outbound)
    ensures Kept(o) == o <==> IsKept(o)
    ensures TlsIn(Kept(o).kind) == KeptTls(TlsIn(o.kind)) && (Kept(o).kind.Socks? <==> o.kind.Socks?)
  {
  }

  /** A blank reality object shows. */
  lemma BlankShows(t: Tls)
    requires IsBlank(t)
    ensures Table(TlsEntries(t)) != Table(TlsEntries(KeptTls(t)))
  {
    hide Table, TlsEntries, RealityTable;
    TlsAt(t, "reality");
    TlsAt(KeptTls(t), "reality");
  }

  lemma TfoShows(o: Outbound)
    requires o.kind.Socks? && o.tfo
    ensures Json(o) != Json(Kept(o))
  {
    hide At, Json, Table;
    SocksJsonAt(o, "tcp_fast_open");
    SocksJsonAt(Kept(o), "tcp_fast_open");
  }

  /** The object tells whether everything is kept. */
  lemma JsonTells(o: Outbound)
    ensures Json(Kept(o)) == Json(o) <==> IsKept(o)
  {
    hide Json, Table, TlsEntries, At, KeptKind;
    KeptIff(o);
    var t := TlsIn(o.kind);
    if IsBlank(t) {
      CommonInJson(o);
      CommonInJson(Kept(o));
      BlankShows(t);
    } else if o.kind.Socks? && o.tfo {
      TfoShows(o);
    }
  }

  /**
    Rendering, parsing and rendering again keeps the name and gives the same JSON tree exactly when the
    node has no reality options without key and short id and is no socks node with TCP fast open.
   */
  lemma RenderIsFixed(n: Node)
    requires OutboundOf(n).Some? && Fits(OutboundOf(n).value)
    ensures var p := OutboundRead(DecodedFields(Rendered(n).value));
            p.Some? && p.value.name == n.name && (Rendered(p.value) == Rendered(n) <==> IsKept(OutboundOf(n).value))
  {
    hide OutboundOf, OutboundRead, Fits, Json, DecodedFields, IsKept, Kept;
    OutboundBack(OutboundOf(n).value);
    NamesMatch(n);
    JsonTells(OutboundOf(n).value);
  }

  lemma NamesMatch(n: Node)
    requires OutboundOf(n).Some?
    ensures OutboundOf(n).value.tag == n.name
  {
    hide CS, CI, CB, KindOf, PrintsTfo;
  }

  /** A socks outbound comes back but for its TCP fast open, so its object is reproduced exactly when it has none. */
  lemma SocksLosesTfo(n: Node)
    requires OutboundOf(n).Some? && OutboundOf(n).value.kind.Socks? && Fits(OutboundOf(n).value)
    ensures var o, p := OutboundOf(n).value, OutboundRead(DecodedFields(Rendered(n).value));
            p.Some? && OutboundOf(p.value) == Some(o.(tfo := false)) && (Rendered(p.value) == Rendered(n) <==> !o.tfo)
  {
    hide OutboundOf, OutboundRead, Fits, Json, DecodedFields;
    OutboundBack(OutboundOf(n).value);
    RenderIsFixed(n);
  }
}
