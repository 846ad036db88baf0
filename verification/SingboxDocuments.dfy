/** The printing and reading code itself, and whole documents. */
module SingboxDocuments {
  import opened Wrappers
  import opened Text
  import opened Decimal
  import opened Values
  import opened Accessors
  import opened UniqueNames
  import opened JsonTrees
  import opened SingboxOutbounds

  // ---------- printing, as the code does it ----------

  /** One assignment to the object being built. */
  method SetKey(m: Fields, b: bool, key: string, v: Value, ghost es: seq<Entry>) returns (r: Fields)
    requires m == Table(es)
    ensures r == Table(es + When(b, key, v))
  {
    TableWhen(es, b, key, v);
    r := m;
    if b { r := r[key := v]; }
  }

  method TLSObject(c: Fields, always: bool) returns (tls: Option<Fields>)
    ensures tls == if TlsOf(c, always).NoTls? then None else Some(Table(TlsEntries(TlsOf(c, always))))
  {
    hide Table, When, CS, CB, CMap, At, SplitAny, GetSNI;
    EmptyTable();
    var ro := CMap(c, "reality-opts");
    if !always && !CB(c, "tls") && ro == map[] {
      return None;
    }
    var t := TlsOf(c, always);
    var m: Fields := map[];
    ghost var es: seq<Entry> := [];
    m := SetKey(m, true, "enabled", Bool(true), es);
    es := es + When(true, "enabled", Bool(true));
    m := SetKey(m, t.sni != "", "server_name", Str(t.sni), es);
    es := es + When(t.sni != "", "server_name", Str(t.sni));
    m := SetKey(m, t.insecure, "insecure", Bool(true), es);
    es := es + When(t.insecure, "insecure", Bool(true));
    m := SetKey(m, t.alpn != [], "alpn", Strs(t.alpn), es);
    es := es + When(t.alpn != [], "alpn", Strs(t.alpn));
    m := SetKey(m, t.fingerprint != "", "utls", Map(UtlsTable(t.fingerprint)), es);
    es := es + When(t.fingerprint != "", "utls", Map(UtlsTable(t.fingerprint)));
    var r := if t.reality.Some? then t.reality.value else Reality("", "");
    m := SetKey(m, ro != map[], "reality", Map(RealityTable(r)), es);
    tls := Some(m);
  }

  method TransportObject(c: Fields) returns (t: Option<Fields>)
    ensures t == if TransportOf(c).Plain? then None else Some(Table(TransportEntries(TransportOf(c))))
  {
    hide Table, When, CS, CMap, At, JoinAny;
    EmptyTable();
    var m: Fields := map[];
    ghost var es: seq<Entry> := [];
    match CS(c, "network") {
      case "ws" =>
        var ws := CMap(c, "ws-opts");
        var path, host := CS(ws, "path"), CS(CMap(ws, "headers"), "Host");
        m := SetKey(m, true, "type", Str("ws"), es);
        es := es + When(true, "type", Str("ws"));
        m := SetKey(m, path != "", "path", Str(path), es);
        es := es + When(path != "", "path", Str(path));
        m := SetKey(m, host != "", "headers", Map(Table([] + When(true, "Host", Str(host)))), es);
        t := Some(m);
      case "grpc" =>
        m := SetKey(m, true, "type", Str("grpc"), es);
        es := es + When(true, "type", Str("grpc"));
        m := SetKey(m, true, "service_name", Str(CS(CMap(c, "grpc-opts"), "grpc-service-name")), es);
        t := Some(m);
      case "h2" =>
        var h2 := CMap(c, "h2-opts");
        var path, host := CS(h2, "path"), JoinAny(At(h2, "host"));
        m := SetKey(m, true, "type", Str("http"), es);
        es := es + When(true, "type", Str("http"));
        m := SetKey(m, path != "", "path", Str(path), es);
        es := es + When(path != "", "path", Str(path));
        m := SetKey(m, host != "", "host", Strs([host]), es);
        t := Some(m);
      case _ =>
        return None;
    }
  }

  /** The transport and TLS parts that follow the protocol's own keys. */
  method AddParts(m: Fields, c: Fields, transport: bool, tls: bool, always: bool, ghost es: seq<Entry>)
    returns (r: Fields)
    requires m == Table(es)
    ensures r == Table(if tls then TlsPart(if transport then TransportPart(es, TransportOf(c))
            else es, TlsOf(c, always))
                       else if transport then TransportPart(es, TransportOf(c)) else es)
  {
    hide Table, When, TransportOf, TlsOf, TransportEntries, TlsEntries;
    r := m;
    ghost var now := es;
    WhenUnused();
    if transport {
      var t := TransportObject(c);
      if t.Some? {
        r := SetKey(r, true, "transport", Map(t.value), now);
      } else {
        r := SetKey(r, false, "transport", Map(map[]), now);
      }
      now := TransportPart(es, TransportOf(c));
    }
    if tls {
      var t := TLSObject(c, always);
      if t.Some? {
        r := SetKey(r, true, "tls", Map(t.value), now);
      } else {
        r := SetKey(r, false, "tls", Map(map[]), now);
      }
    }
  }

  /** An absent key does not depend on its value. */
  lemma WhenUnused()
    ensures forall k, v, w :: When(false, k, v) == When(false, k, w)
  {
  }

  method FrontObject(n: Node) returns (m: Fields)
    requires OutboundOf(n).Some?
    ensures m == Table(Front(OutboundOf(n).value))
  {
    hide Table, When, CS, CI, CB, KindOf;
    EmptyTable();
    var c := n.clash;
    var tfo := CB(c, "tfo") && PrintsTfo(n.typ);
    ghost var es: seq<Entry> := [];
    m := map[];
    m := SetKey(m, true, "tag", Str(n.name), es);
    es := es + When(true, "tag", Str(n.name));
    m := SetKey(m, true, "server", Str(CS(c, "server")), es);
    es := es + When(true, "server", Str(CS(c, "server")));
    m := SetKey(m, true, "server_port", Int(CI(c, "port")), es);
    es := es + When(true, "server_port", Int(CI(c, "port")));
    m := SetKey(m, tfo, "tcp_fast_open", Bool(true), es);
  }

  /** Two string keys of which the second may be left out. */
  method TwoTexts(m: Fields, typ: string, b1: bool, k1: string, s1: string, b2: bool, k2: string, s2: string,
                  ghost es: seq<Entry>) returns (r: Fields)
    requires m == Table(es)
    ensures r == Table(es + When(true, "type", Str(typ)) + When(b1, k1, Str(s1)) + When(b2, k2, Str(s2)))
  {
    hide Table, When;
    r := SetKey(m, true, "type", Str(typ), es);
    r := SetKey(r, b1, k1, Str(s1), es + When(true, "type", Str(typ)));
    r := SetKey(r, b2, k2, Str(s2), es + When(true, "type", Str(typ)) + When(b1, k1, Str(s1)));
  }

  method SSObject(m: Fields, c: Fields, ghost es: seq<Entry>) returns (r: Fields)
    requires m == Table(es)
    ensures KindOf("ss", c).Some? && r == Table(KindEntries(es, KindOf("ss", c).value))
  {
    hide Table, When, CS, CI, CB, CMap, At, TlsOf, TransportOf, PluginOf, ReservedOf, PluginText, TlsPart,
        TransportPart, GetSNI, WithPrefix, Addresses,
      FirstNonEmpty;
    var p := PluginOf(c);
    r := TwoTexts(m, "shadowsocks", true, "method", CS(c, "cipher"), true, "password", CS(c, "password"), es);
    ghost var e1 := es + When(true, "type", Str("shadowsocks")) + When(true, "method", Str(CS(c, "cipher")))
        + When(true, "password", Str(CS(c, "password")));
    r := SetKey(r, !p.NoPlugin?, "plugin", Str(if p.Obfs? then "obfs-local" else "v2ray-plugin"), e1);
    e1 := e1 + When(!p.NoPlugin?, "plugin", Str(if p.Obfs? then "obfs-local" else "v2ray-plugin"));
    r := SetKey(r, !p.NoPlugin?, "plugin_opts", Str(PluginText(p)), e1);
  }

  method VMessObject(m: Fields, c: Fields, ghost es: seq<Entry>) returns (r: Fields)
    requires m == Table(es)
    ensures KindOf("vmess", c).Some? && r == Table(KindEntries(es, KindOf("vmess", c).value))
  {
    hide Table, When, CS, CI, CB, CMap, At, TlsOf, TransportOf, PluginOf, ReservedOf, PluginText, TlsPart,
        TransportPart, GetSNI, WithPrefix, Addresses,
      FirstNonEmpty;
    var security := FirstNonEmpty(CS(c, "cipher"), "auto");
    r := SetKey(m, true, "type", Str("vmess"), es);
    ghost var e1 := es + When(true, "type", Str("vmess"));
    r := SetKey(r, true, "uuid", Str(CS(c, "uuid")), e1);
    e1 := e1 + When(true, "uuid", Str(CS(c, "uuid")));
    r := SetKey(r, true, "alter_id", Int(CI(c, "alterId")), e1);
    e1 := e1 + When(true, "alter_id", Int(CI(c, "alterId")));
    r := SetKey(r, true, "security", Str(security), e1);
    e1 := e1 + When(true, "security", Str(security));
    r := AddParts(r, c, true, true, false, e1);
  }

  method VLessObject(m: Fields, c: Fields, ghost es: seq<Entry>) returns (r: Fields)
    requires m == Table(es)
    ensures KindOf("vless", c).Some? && r == Table(KindEntries(es, KindOf("vless", c).value))
  {
    hide Table, When, CS, CI, CB, CMap, At, TlsOf, TransportOf, PluginOf, ReservedOf, PluginText, TlsPart,
        TransportPart, GetSNI, WithPrefix, Addresses,
      FirstNonEmpty;
    var flow := CS(c, "flow");
    r := TwoTexts(m, "vless", true, "uuid", CS(c, "uuid"), flow != "", "flow", flow, es);
    ghost var e1 := es + When(true, "type", Str("vless")) + When(true, "uuid", Str(CS(c, "uuid")))
        + When(flow != "", "flow", Str(flow));
    r := AddParts(r, c, true, true, false, e1);
  }

  method TrojanObject(m: Fields, c: Fields, ghost es: seq<Entry>) returns (r: Fields)
    requires m == Table(es)
    ensures KindOf("trojan", c).Some? && r == Table(KindEntries(es, KindOf("trojan", c).value))
  {
    hide Table, When, CS, CI, CB, CMap, At, TlsOf, TransportOf, PluginOf, ReservedOf, PluginText, TlsPart,
        TransportPart, GetSNI, WithPrefix, Addresses,
      FirstNonEmpty;
    r := SetKey(m, true, "type", Str("trojan"), es);
    ghost var e1 := es + When(true, "type", Str("trojan"));
    r := SetKey(r, true, "password", Str(CS(c, "password")), e1);
    e1 := e1 + When(true, "password", Str(CS(c, "password")));
    r := AddParts(r, c, true, true, true, e1);
  }

  method Hysteria2Object(m: Fields, c: Fields, ghost es: seq<Entry>) returns (r: Fields)
    requires m == Table(es)
    ensures KindOf("hysteria2", c).Some? && r == Table(KindEntries(es, KindOf("hysteria2", c).value))
  {
    hide Table, When, CS, CI, CB, CMap, At, TlsOf, TransportOf, PluginOf, ReservedOf, PluginText, TlsPart,
        TransportPart, GetSNI, WithPrefix, Addresses,
      FirstNonEmpty;
    var obfs, secret := CS(c, "obfs"), if CS(c, "obfs") != "" then CS(c, "obfs-password") else "";
    r := SetKey(m, true, "type", Str("hysteria2"), es);
    ghost var e1 := es + When(true, "type", Str("hysteria2"));
    r := SetKey(r, true, "password", Str(CS(c, "password")), e1);
    e1 := e1 + When(true, "password", Str(CS(c, "password")));
    r := SetKey(r, obfs != "", "obfs", Map(ObfsTable(obfs, secret)), e1);
    e1 := e1 + When(obfs != "", "obfs", Map(ObfsTable(obfs, secret)));
    r := AddParts(r, c, false, true, true, e1);
  }

  method TuicObject(m: Fields, c: Fields, ghost es: seq<Entry>) returns (r: Fields)
    requires m == Table(es)
    ensures KindOf("tuic", c).Some? && r == Table(KindEntries(es, KindOf("tuic", c).value))
  {
    hide Table, When, CS, CI, CB, CMap, At, TlsOf, TransportOf, PluginOf, ReservedOf, PluginText, TlsPart,
        TransportPart, GetSNI, WithPrefix, Addresses,
      FirstNonEmpty;
    var cc := CS(c, "congestion-controller");
    r := TwoTexts(m, "tuic", true, "uuid", CS(c, "uuid"), true, "password", CS(c, "password"), es);
    ghost var e1 := es + When(true, "type", Str("tuic")) + When(true, "uuid", Str(CS(c, "uuid")))
        + When(true, "password", Str(CS(c, "password")));
    r := SetKey(r, cc != "", "congestion_control", Str(cc), e1);
    e1 := e1 + When(cc != "", "congestion_control", Str(cc));
    r := AddParts(r, c, false, true, true, e1);
  }

  method HttpObject(m: Fields, c: Fields, ghost es: seq<Entry>) returns (r: Fields)
    requires m == Table(es)
    ensures KindOf("http", c).Some? && r == Table(KindEntries(es, KindOf("http", c).value))
  {
    hide Table, When, CS, CI, CB, CMap, At, TlsOf, TransportOf, PluginOf, ReservedOf, PluginText, TlsPart,
        TransportPart, GetSNI, WithPrefix, Addresses,
      FirstNonEmpty;
    var u, pw := CS(c, "username"), CS(c, "password");
    r := TwoTexts(m, "http", u != "", "username", u, pw != "", "password", pw, es);
    ghost var e1 := es + When(true, "type", Str("http")) + When(u != "", "username", Str(u))
        + When(pw != "", "password", Str(pw));
    r := AddParts(r, c, false, true, false, e1);
  }

  method HysteriaObject(m: Fields, c: Fields, ghost es: seq<Entry>) returns (r: Fields)
    requires m == Table(es)
    ensures KindOf("hysteria", c).Some? && r == Table(KindEntries(es, KindOf("hysteria", c).value))
  {
    hide Table, When, CS, CI, CB, CMap, At, TlsOf, TransportOf, PluginOf, ReservedOf, PluginText, TlsPart,
        TransportPart, GetSNI, WithPrefix, Addresses,
      FirstNonEmpty;
    var auth, up, down, obfs := CS(c, "auth-str"), Positive(CI(c, "up")), Positive(CI(c, "down")), CS(c, "obfs");
    assert KindOf("hysteria", c) == Some(Hysteria(auth, up, down, obfs, TlsOf(c, true)));
    hide KindOf;
    r := SetKey(m, true, "type", Str("hysteria"), es);
    ghost var e1 := es + When(true, "type", Str("hysteria"));
    r := SetKey(r, auth != "", "auth_str", Str(auth), e1);
    e1 := e1 + When(auth != "", "auth_str", Str(auth));
    r := SetKey(r, up > 0, "up_mbps", Int(up), e1);
    e1 := e1 + When(up > 0, "up_mbps", Int(up));
    r := SetKey(r, down > 0, "down_mbps", Int(down), e1);
    e1 := e1 + When(down > 0, "down_mbps", Int(down));
    r := SetKey(r, obfs != "", "obfs", Str(obfs), e1);
    e1 := e1 + When(obfs != "", "obfs", Str(obfs));
    r := AddParts(r, c, false, true, true, e1);
  }

  method SocksObject(m: Fields, typ: string, c: Fields, ghost es: seq<Entry>) returns (r: Fields)
    requires m == Table(es) && (typ == "socks5" || typ == "socks")
    ensures KindOf(typ, c).Some? && r == Table(KindEntries(es, KindOf(typ, c).value))
  {
    hide Table, When, CS, CI, CB, CMap, At, TlsOf, TransportOf, PluginOf, ReservedOf, PluginText, TlsPart,
        TransportPart, GetSNI, WithPrefix, Addresses,
      FirstNonEmpty;
    var u, pw := CS(c, "username"), CS(c, "password");
    r := SetKey(m, true, "type", Str("socks"), es);
    ghost var e1 := es + When(true, "type", Str("socks"));
    r := SetKey(r, true, "version", Str("5"), e1);
    e1 := e1 + When(true, "version", Str("5"));
    r := SetKey(r, u != "", "username", Str(u), e1);
    e1 := e1 + When(u != "", "username", Str(u));
    r := SetKey(r, pw != "", "password", Str(pw), e1);
  }

  method LocalAddresses(ip: string, ipv6: string) returns (list: seq<string>)
    ensures list == Addresses(WithPrefix(ip, "/32"), WithPrefix(ipv6, "/128"))
    ensures |list| > 0 <==> WithPrefix(ip, "/32") != "" || WithPrefix(ipv6, "/128") != ""
  {
    list := [];
    if ip != "" {
      if '/' !in ip {
        list := list + [ip + "/32"];
      } else {
        list := list + [ip];
      }
    }
    if ipv6 != "" {
      if '/' !in ipv6 {
        list := list + [ipv6 + "/128"];
      } else {
        list := list + [ipv6];
      }
    }
  }

  method WireGuardObject(m: Fields, c: Fields, ghost es: seq<Entry>) returns (r: Fields)
    requires m == Table(es)
    ensures KindOf("wireguard", c).Some? && r == Table(KindEntries(es, KindOf("wireguard", c).value))
  {
    hide Table, When, CS, CI, At, ReservedOf, Addresses, WithPrefix;
    var psk, mtu, rsv := CS(c, "pre-shared-key"), Positive(CI(c, "mtu")), ReservedOf(At(c, "reserved"));
    var ip, ipv6 := CS(c, "ip"), CS(c, "ipv6");
    var localAddr := LocalAddresses(ip, ipv6);
    assert KindOf("wireguard", c) == Some(WireGuard(CS(c, "private-key"), CS(c, "public-key"), psk,
        WithPrefix(ip, "/32"), WithPrefix(ipv6, "/128"), mtu, rsv));
    hide KindOf;
    ghost var e1 := es + When(true, "type", Str("wireguard"));
    r := SetKey(m, true, "type", Str("wireguard"), es);
    r := SetKey(r, true, "private_key", Str(CS(c, "private-key")), e1);
    e1 := e1 + When(true, "private_key", Str(CS(c, "private-key")));
    r := SetKey(r, true, "peer_public_key", Str(CS(c, "public-key")), e1);
    e1 := e1 + When(true, "peer_public_key", Str(CS(c, "public-key")));
    r := SetKey(r, psk != "", "pre_shared_key", Str(psk), e1);
    e1 := e1 + When(psk != "", "pre_shared_key", Str(psk));
    r := SetKey(r, |localAddr| > 0, "local_address", Strs(localAddr), e1);
    e1 := e1 + When(|localAddr| > 0, "local_address", Strs(localAddr));
    r := SetKey(r, mtu > 0, "mtu", Int(mtu), e1);
    e1 := e1 + When(mtu > 0, "mtu", Int(mtu));
    r := SetKey(r, rsv != [], "reserved", Ints(rsv), e1);
  }

  lemma KnownTypes(typ: string, c: Fields)
    requires KindOf(typ, c).Some?
    ensures typ in {"ss", "vmess", "vless", "trojan", "hysteria2", "tuic", "socks5", "socks", "http", "wireguard",
            "hysteria"}
  {
  }

  /** nodeSingboxOutbound's keys for one protocol, on top of the front. */
  method KindObject(m: Fields, typ: string, c: Fields, ghost es: seq<Entry>) returns (r: Fields)
    requires KindOf(typ, c).Some? && m == Table(es)
    ensures r == Table(KindEntries(es, KindOf(typ, c).value))
  {
    KnownTypes(typ, c);
    hide Table, KindOf, KindEntries;
    match typ {
      case "ss" => r := SSObject(m, c, es);
      case "vmess" => r := VMessObject(m, c, es);
      case "vless" => r := VLessObject(m, c, es);
      case "trojan" => r := TrojanObject(m, c, es);
      case "hysteria2" => r := Hysteria2Object(m, c, es);
      case "tuic" => r := TuicObject(m, c, es);
      case "http" => r := HttpObject(m, c, es);
      case "hysteria" => r := HysteriaObject(m, c, es);
      case "wireguard" => r := WireGuardObject(m, c, es);
      case _ => r := SocksObject(m, typ, c, es);
    }
  }

  /** nodeSingboxOutbound. */
  method NodeOutbound(n: Node) returns (ob: Option<Fields>)
    ensures ob == Rendered(n)
  {
    hide Table, CS, CI, CB, KindOf, KindEntries, Front;
    if KindOf(n.typ, n.clash).None? {
      return None;
    }
    var m := FrontObject(n);
    var o := KindObject(m, n.typ, n.clash, Front(OutboundOf(n).value));
    ob := Some(o);
  }

  // ---------- reading, as the code does it ----------

  /** One Set or SetRaw on the node being built. */
  method SetValue(p: Proxy, b: bool, key: string, v: Value, ghost es: seq<Entry>)
    requires p.Clash == Table(es)
    modifies p`Clash
    ensures p.Clash == Table(es + When(b, key, v))
  {
    TableWhen(es, b, key, v);
    if b { p.SetRaw(key, v); }
  }

  method SetText(p: Proxy, key: string, t: string, ghost es: seq<Entry>)
    requires p.Clash == Table(es)
    modifies p`Clash
    ensures p.Clash == Table(Put(es, key, t))
  {
    TableWhen(es, t != "", key, Str(t));
    p.Set(key, Str(t));
  }

  method StringsOf(items: seq<Value>) returns (ss: seq<string>)
    ensures ss == NonEmptyStrings(items)
  {
    ss := [];
    for i := 0 to |items|
      invariant ss == NonEmptyStrings(items[..i])
    {
      assert items[..i + 1][..i] == items[..i];
      if items[i].Str? && items[i].s != "" {
        ss := ss + [items[i].s];
      }
    }
    assert items[..|items|] == items;
  }

  method ExtractTLS(p: Proxy, tls: Option<Fields>, ghost es: seq<Entry>)
    requires p.Clash == Table(es)
    modifies p`Clash
    ensures p.Clash == Table(WithTls(es, tls))
  {
    hide Table, When, JText, JFlag, JMap, FingerprintIn, RealityIn, NonEmptyStrings, TlsOn;
    if tls.None? {
      return;
    }
    var t := tls.value;
    ghost var e := es;
    SetValue(p, TlsOn(t), "tls", Bool(true), e);
    e := e + When(TlsOn(t), "tls", Bool(true));
    var sni := JText(t, "server_name");
    SetValue(p, sni != "", "sni", Str(sni), e);
    e := e + When(sni != "", "sni", Str(sni));
    SetValue(p, JFlag(t, "insecure"), "skip-cert-verify", Bool(true), e);
    e := e + When(JFlag(t, "insecure"), "skip-cert-verify", Bool(true));
    var alpn := [];
    if "alpn" in t && t["alpn"].List? {
      alpn := StringsOf(t["alpn"].items);
    }
    SetValue(p, alpn != [], "alpn", Strs(alpn), e);
    e := e + When(alpn != [], "alpn", Strs(alpn));
    var fp := FingerprintIn(t);
    SetValue(p, fp != "", "client-fingerprint", Str(fp), e);
    e := e + When(fp != "", "client-fingerprint", Str(fp));
    var ro := RealityIn(t);
    SetValue(p, ro != map[], "reality-opts", Map(ro), e);
  }

  method ExtractTransport(p: Proxy, tr: Option<Fields>, ghost es: seq<Entry>)
    requires p.Clash == Table(es)
    modifies p`Clash
    ensures p.Clash == Table(WithTransport(es, tr))
  {
    hide Table, When, JText, WsOptions, H2Options;
    if tr.None? {
      return;
    }
    var t := tr.value;
    match JText(t, "type") {
      case "ws" =>
        SetValue(p, true, "network", Str("ws"), es);
        SetValue(p, true, "ws-opts", Map(WsOptions(t)), es + When(true, "network", Str("ws")));
      case "grpc" =>
        SetValue(p, true, "network", Str("grpc"), es);
        SetValue(p, true, "grpc-opts", Map(Table([] + When(true, "grpc-service-name", Str(JText(t, "service_name"))))),
            es + When(true, "network", Str("grpc")));
      case "http" =>
        SetValue(p, true, "network", Str("h2"), es);
        SetValue(p, true, "h2-opts", Map(H2Options(t)), es + When(true, "network", Str("h2")));
      case _ =>
    }
  }

  method ReadObfs(parts: seq<string>) returns (opts: Fields)
    ensures opts == ObfsOptions(parts)
  {
    hide Cut, TrimSpace;
    opts := map[];
    for i := 0 to |parts|
      invariant opts == ObfsOptions(parts[..i])
    {
      assert parts[..i + 1][..i] == parts[..i];
      var cut := Cut(parts[i], '=');
      if !cut.found {
        continue;
      }
      var k, v := TrimSpace(cut.before), TrimSpace(cut.after);
      match k {
        case "obfs" => opts := opts["mode" := Str(v)];
        case "obfs-host" => opts := opts["host" := Str(v)];
        case _ =>
      }
    }
    assert parts[..|parts|] == parts;
  }

  method ReadV2ray(parts: seq<string>) returns (opts: Fields)
    ensures opts == V2rayOptions(parts)
  {
    hide Cut, TrimSpace;
    opts := map[];
    for i := 0 to |parts|
      invariant opts == V2rayOptions(parts[..i])
    {
      assert parts[..i + 1][..i] == parts[..i];
      var part := TrimSpace(parts[i]);
      if part == "tls" {
        opts := opts["tls" := Bool(true)];
        continue;
      }
      var cut := Cut(part, '=');
      if cut.found {
        opts := opts[TrimSpace(cut.before) := Str(TrimSpace(cut.after))];
      }
    }
    assert parts[..|parts|] == parts;
  }

  method SetPlugin(p: Proxy, plugin: string, options: string, ghost es: seq<Entry>)
    requires p.Clash == Table(es)
    modifies p`Clash
    ensures p.Clash == Table(WithPlugin(es, plugin, options))
  {
    hide Table, When, Split, ObfsOptions, V2rayOptions;
    if plugin == "obfs-local" || plugin == "obfs" {
      SetValue(p, true, "plugin", Str("obfs"), es);
      var opts := ReadObfs(Split(options, ';'));
      SetValue(p, true, "plugin-opts", Map(opts), es + When(true, "plugin", Str("obfs")));
    } else if plugin == "v2ray-plugin" {
      SetValue(p, true, "plugin", Str("v2ray-plugin"), es);
      var opts := ReadV2ray(Split(options, ';'));
      SetValue(p, true, "plugin-opts", Map(opts), es + When(true, "plugin", Str("v2ray-plugin")));
    }
  }

  method SetAddresses(p: Proxy, items: seq<Value>, ghost es: seq<Entry>)
    requires p.Clash == Table(es)
    modifies p`Clash
    ensures p.Clash == Table(AddressesIn(es, items))
  {
    hide Table, Put, TrimSuffix, TrimSpace;
    for i := 0 to |items|
      invariant p.Clash == Table(AddressesIn(es, items[..i]))
    {
      assert items[..i + 1][..i] == items[..i];
      var s := if items[i].Str? then TrimSpace(items[i].s) else "";
      if ':' in s {
        SetText(p, "ipv6", TrimSuffix(s, "/128"), AddressesIn(es, items[..i]));
      } else if s != "" {
        SetText(p, "ip", TrimSuffix(s, "/32"), AddressesIn(es, items[..i]));
      }
    }
    assert items[..|items|] == items;
  }

  method ReadSS(p: Proxy, ob: Fields, ghost es: seq<Entry>)
    requires p.Clash == Table(es)
    modifies p`Clash
    ensures p.Clash == Table(NodeEntries(es, "ss", ob))
  {
    hide Table, When, Put, JText, JFlag, WithPlugin;
    SetText(p, "cipher", JText(ob, "method"), es);
    ghost var e := Put(es, "cipher", JText(ob, "method"));
    SetText(p, "password", JText(ob, "password"), e);
    e := Put(e, "password", JText(ob, "password"));
    SetValue(p, JFlag(ob, "tcp_fast_open"), "tfo", Bool(true), e);
    e := e + When(JFlag(ob, "tcp_fast_open"), "tfo", Bool(true));
    SetPlugin(p, JText(ob, "plugin"), JText(ob, "plugin_opts"), e);
  }

  /** The parts vmess, vless and trojan share. */
  method ReadParts(p: Proxy, ob: Fields, ghost es: seq<Entry>)
    requires p.Clash == Table(es)
    modifies p`Clash
    ensures p.Clash == Table(WithTransport(WithTls(es, JMap(ob, "tls")), JMap(ob, "transport"))
            + When(JFlag(ob, "tcp_fast_open"), "tfo", Bool(true)))
  {
    hide Table, When, JFlag, JMap, WithTls, WithTransport;
    ExtractTLS(p, JMap(ob, "tls"), es);
    ExtractTransport(p, JMap(ob, "transport"), WithTls(es, JMap(ob, "tls")));
    SetValue(p, JFlag(ob, "tcp_fast_open"), "tfo", Bool(true),
        WithTransport(WithTls(es, JMap(ob, "tls")), JMap(ob, "transport")));
  }

  method ReadVMess(p: Proxy, ob: Fields, ghost es: seq<Entry>)
    requires p.Clash == Table(es)
    modifies p`Clash
    ensures p.Clash == Table(NodeEntries(es, "vmess", ob))
  {
    hide Table, When, Put, JText, JInt, JFlag, JMap, WithTls, WithTransport, FirstNonEmpty;
    SetText(p, "uuid", JText(ob, "uuid"), es);
    ghost var e := Put(es, "uuid", JText(ob, "uuid"));
    var aid := JInt(ob, "alter_id");
    SetValue(p, aid >= 0, "alterId", Int(aid), e);
    e := e + When(aid >= 0, "alterId", Int(aid));
    SetText(p, "cipher", FirstNonEmpty(JText(ob, "security"), "auto"), e);
    ReadParts(p, ob, Put(e, "cipher", FirstNonEmpty(JText(ob, "security"), "auto")));
  }

  method ReadVLess(p: Proxy, ob: Fields, ghost es: seq<Entry>)
    requires p.Clash == Table(es)
    modifies p`Clash
    ensures p.Clash == Table(NodeEntries(es, "vless", ob))
  {
    hide Table, When, Put, JText, JFlag, JMap, WithTls, WithTransport;
    SetText(p, "uuid", JText(ob, "uuid"), es);
    SetText(p, "flow", JText(ob, "flow"), Put(es, "uuid", JText(ob, "uuid")));
    ReadParts(p, ob, Put(Put(es, "uuid", JText(ob, "uuid")), "flow", JText(ob, "flow")));
  }

  method ReadTrojan(p: Proxy, ob: Fields, ghost es: seq<Entry>)
    requires p.Clash == Table(es)
    modifies p`Clash
    ensures p.Clash == Table(NodeEntries(es, "trojan", ob))
  {
    hide Table, When, Put, JText, JFlag, JMap, WithTls, WithTransport;
    SetText(p, "password", JText(ob, "password"), es);
    SetValue(p, true, "udp", Bool(true), Put(es, "password", JText(ob, "password")));
    ReadParts(p, ob, Put(es, "password", JText(ob, "password")) + When(true, "udp", Bool(true)));
  }

  method ReadHysteria2(p: Proxy, ob: Fields, ghost es: seq<Entry>)
    requires p.Clash == Table(es)
    modifies p`Clash
    ensures p.Clash == Table(NodeEntries(es, "hysteria2", ob))
  {
    hide Table, Put, JText, JMap, WithTls;
    SetText(p, "password", JText(ob, "password"), es);
    ghost var e := Put(es, "password", JText(ob, "password"));
    var obfs := JMap(ob, "obfs");
    if obfs.Some? {
      SetText(p, "obfs", JText(obfs.value, "type"), e);
      e := Put(e, "obfs", JText(obfs.value, "type"));
      SetText(p, "obfs-password", JText(obfs.value, "password"), e);
      e := Put(e, "obfs-password", JText(obfs.value, "password"));
    }
    ExtractTLS(p, JMap(ob, "tls"), e);
  }

  method ReadHysteria(p: Proxy, ob: Fields, ghost es: seq<Entry>)
    requires p.Clash == Table(es)
    modifies p`Clash
    ensures p.Clash == Table(NodeEntries(es, "hysteria", ob))
  {
    hide Table, When, Put, JText, JInt, JMap, WithTls, Itoa;
    SetText(p, "auth-str", JText(ob, "auth_str"), es);
    ghost var e := Put(es, "auth-str", JText(ob, "auth_str"));
    var up, down := JInt(ob, "up_mbps"), JInt(ob, "down_mbps");
    SetValue(p, up > 0, "up", Str(Itoa(up)), e);
    e := e + When(up > 0, "up", Str(Itoa(up)));
    SetValue(p, down > 0, "down", Str(Itoa(down)), e);
    e := e + When(down > 0, "down", Str(Itoa(down)));
    SetText(p, "obfs", JText(ob, "obfs"), e);
    ExtractTLS(p, JMap(ob, "tls"), Put(e, "obfs", JText(ob, "obfs")));
  }

  method ReadTuic(p: Proxy, ob: Fields, ghost es: seq<Entry>)
    requires p.Clash == Table(es)
    modifies p`Clash
    ensures p.Clash == Table(NodeEntries(es, "tuic", ob))
  {
    hide Table, Put, JText, JMap, WithTls;
    SetText(p, "uuid", JText(ob, "uuid"), es);
    ghost var e := Put(es, "uuid", JText(ob, "uuid"));
    SetText(p, "password", JText(ob, "password"), e);
    e := Put(e, "password", JText(ob, "password"));
    SetText(p, "congestion-controller", JText(ob, "congestion_control"), e);
    ExtractTLS(p, JMap(ob, "tls"), Put(e, "congestion-controller", JText(ob, "congestion_control")));
  }

  /** anytls, socks5 and http. */
  method ReadSimple(p: Proxy, typ: string, ob: Fields, ghost es: seq<Entry>)
    requires p.Clash == Table(es) && (typ == "anytls" || typ == "socks5" || typ == "http")
    modifies p`Clash
    ensures p.Clash == Table(NodeEntries(es, typ, ob))
  {
    hide Table, Put, JText, JMap, WithTls;
    ghost var e := es;
    if typ != "anytls" {
      SetText(p, "username", JText(ob, "username"), e);
      e := Put(e, "username", JText(ob, "username"));
    }
    SetText(p, "password", JText(ob, "password"), e);
    e := Put(e, "password", JText(ob, "password"));
    if typ != "socks5" {
      ExtractTLS(p, JMap(ob, "tls"), e);
    }
  }

  method ReadWireGuard(p: Proxy, ob: Fields, ghost es: seq<Entry>)
    requires p.Clash == Table(es)
    modifies p`Clash
    ensures p.Clash == Table(NodeEntries(es, "wireguard", ob))
  {
    hide Table, When, Put, JText, JInt, AddressesIn, IntsOf, ListAt;
    SetText(p, "private-key", JText(ob, "private_key"), es);
    ghost var e := Put(es, "private-key", JText(ob, "private_key"));
    SetText(p, "public-key", JText(ob, "peer_public_key"), e);
    e := Put(e, "public-key", JText(ob, "peer_public_key"));
    SetText(p, "pre-shared-key", JText(ob, "pre_shared_key"), e);
    e := Put(e, "pre-shared-key", JText(ob, "pre_shared_key"));
    SetAddresses(p, ListAt(ob, "local_address"), e);
    e := AddressesIn(e, ListAt(ob, "local_address"));
    var mtu, rsv := JInt(ob, "mtu"), ListAt(ob, "reserved");
    SetValue(p, mtu > 0, "mtu", Int(mtu), e);
    e := e + When(mtu > 0, "mtu", Int(mtu));
    SetValue(p, rsv != [], "reserved", Ints(IntsOf(rsv)), e);
  }

  lemma SeedIsTable(typ: string, tag: string, server: string, port: int)
    ensures Seed(typ, tag, server, port) == Table(SeedEntries(typ, tag, server, port))
  {
    hide Table, When;
    EmptyTable();
    var e1 := [] + When(true, "name", Str(tag));
    var e2 := e1 + When(true, "type", Str(typ));
    var e3 := e2 + When(true, "server", Str(server));
    TableWhen([], true, "name", Str(tag));
    TableWhen(e1, true, "type", Str(typ));
    TableWhen(e2, true, "server", Str(server));
    TableWhen(e3, true, "port", Int(port));
  }

  /** parseSingboxOutbound; null stands for an error. */
  method ParseOutbound(typ: string, tag: string, server: string, port: int, ob: Fields) returns (p: Proxy?)
    ensures p == null <==> NodeRead(typ, tag, server, port, ob) == None
    ensures p != null ==> fresh(p) && NodeRead(typ, tag, server, port, ob) == Some(p.View())
  {
    hide Table, NodeEntries, SeedEntries, Seed;
    p := null;
    if (tag == "" || server == "" || port == 0) && typ != "wireguard" {
      return;
    }
    var t := ClashType(typ);
    if t == "" {
      return;
    }
    var node := new Proxy(t, tag, server, port);
    SeedIsTable(t, tag, server, port);
    ReadKind(node, t, ob, SeedEntries(t, tag, server, port));
    p := node;
  }

  method ReadKind(p: Proxy, t: string, ob: Fields, ghost es: seq<Entry>)
    requires p.Clash == Table(es)
    requires t in {"ss", "vmess", "vless", "trojan", "hysteria2", "hysteria", "tuic", "anytls", "socks5", "http",
            "wireguard"}
    modifies p`Clash
    ensures p.Clash == Table(NodeEntries(es, t, ob))
  {
    hide Table, NodeEntries;
    match t {
      case "ss" => ReadSS(p, ob, es);
      case "vmess" => ReadVMess(p, ob, es);
      case "vless" => ReadVLess(p, ob, es);
      case "trojan" => ReadTrojan(p, ob, es);
      case "hysteria2" => ReadHysteria2(p, ob, es);
      case "hysteria" => ReadHysteria(p, ob, es);
      case "tuic" => ReadTuic(p, ob, es);
      case "wireguard" => ReadWireGuard(p, ob, es);
      case _ => ReadSimple(p, t, ob, es);
    }
  }

  // ---------- whole documents ----------

  const NON_PROXY: set<string> := {"direct", "block", "dns", "selector", "urltest"}

  function NodesIn(obs: seq<Fields>): seq<Node>
  {
    if obs == [] then [] else
    var ob := obs[|obs| - 1];
    var p := OutboundRead(ob);
    NodesIn(obs[..|obs| - 1]) + if ToLower(JText(ob, "type")) !in NON_PROXY && p.Some? then [p.value] else []
  }

  /** How many outbounds are reported as skipped. */
  function SkippedIn(obs: seq<Fields>): nat
  {
    if obs == [] then 0 else
    var ob := obs[|obs| - 1];
    SkippedIn(obs[..|obs| - 1]) + if ToLower(JText(ob, "type")) !in NON_PROXY && OutboundRead(ob).None? then 1 else 0
  }

  /** The loop of parseSingboxJSON, on the decoded outbounds. */
  method ParseOutbounds(obs: seq<Fields>) returns (nodes: seq<Proxy>, skipped: nat)
    ensures Views(nodes) == NodesIn(obs) && skipped == SkippedIn(obs)
    ensures forall k :: 0 <= k < |nodes| ==> fresh(nodes[k])
  {
    hide NodeRead, ToLower, JText, JInt, Views;
    nodes, skipped := [], 0;
    NoViews();
    for i := 0 to |obs|
      invariant Views(nodes) == NodesIn(obs[..i]) && skipped == SkippedIn(obs[..i])
      invariant forall k :: 0 <= k < |nodes| ==> fresh(nodes[k])
    {
      assert obs[..i + 1][..i] == obs[..i];
      var ob := obs[i];
      var typ := ToLower(JText(ob, "type"));
      if typ in NON_PROXY {
        continue;
      }
      var p := ParseOutbound(typ, JText(ob, "tag"), JText(ob, "server"), JInt(ob, "server_port"), ob);
      if p == null {
        skipped := skipped + 1;
        continue;
      }
      ViewsSnoc(nodes, p);
      nodes := nodes + [p];
    }
    assert obs[..|obs|] == obs;
  }

  lemma NoViews()
    ensures Views([]) == []
  {
  }

  /** The node outbounds of a document, in node order. */
  function Outbounds(nodes: seq<Node>): seq<Fields>
  {
    if nodes == [] then [] else
    var ob := Rendered(nodes[|nodes| - 1]);
    Outbounds(nodes[..|nodes| - 1]) + if ob.Some? then [ob.value] else []
  }

  /** The names of the nodes with an outbound. */
  function Shown(nodes: seq<Node>): seq<string>
  {
    if nodes == [] then [] else
    var n := nodes[|nodes| - 1];
    Shown(nodes[..|nodes| - 1]) + if Rendered(n).Some? then [n.name] else []
  }

  method GenerateOutbounds(nodes: seq<Proxy>)
    returns (outbounds: seq<Fields>, shown: seq<string>, skipped: seq<string>)
    ensures outbounds == Outbounds(Views(nodes)) && shown == Shown(Views(nodes))
    ensures skipped == SkippedNodes(Views(nodes))
  {
    hide Rendered;
    outbounds, shown, skipped := [], [], [];
    for i := 0 to |nodes|
      invariant outbounds == Outbounds(Views(nodes)[..i]) && shown == Shown(Views(nodes)[..i])
      invariant skipped == SkippedNodes(Views(nodes)[..i])
    {
      var n := Node(nodes[i].Name, nodes[i].Type, nodes[i].Server, nodes[i].Port, nodes[i].Clash);
      assert Views(nodes)[..i + 1][..i] == Views(nodes)[..i] && Views(nodes)[i] == n;
      var ob := NodeOutbound(n);
      if ob.None? {
        skipped := skipped + [n.name + " (" + n.typ + ": unsupported by sing-box generator)"];
        continue;
      }
      outbounds := outbounds + [ob.value];
      shown := shown + [n.name];
    }
    assert Views(nodes)[..|nodes|] == Views(nodes);
  }

  function SkippedNodes(nodes: seq<Node>): seq<string>
  {
    if nodes == [] then [] else
    var n := nodes[|nodes| - 1];
    SkippedNodes(nodes[..|nodes| - 1]) + if Rendered(n).None? then [n.name + " (" + n.typ
        + ": unsupported by sing-box generator)"] else []
  }

  function DecodedAll(obs: seq<Fields>): (r: seq<Fields>)
    ensures |r| == |obs|
  {
    seq(|obs|, i requires 0 <= i < |obs| => DecodedFields(obs[i]))
  }

  predicate NodeFits(n: Node) { OutboundOf(n).Some? && Fits(OutboundOf(n).value) }

  lemma ProxyType(n: Node)
    requires NodeFits(n)
    ensures ToLower(JText(DecodedFields(Rendered(n).value), "type")) !in NON_PROXY
  {
    var o := OutboundOf(n).value;
    BagBack(o);
    TypeReads(o.kind);
    NotRouting(o.kind);
    hide OutboundOf, Fits, Json, DecodedFields, JText, JInt, ToLower, BagOf, KindOf, TypeOf, JsonTypeOf;
  }

  lemma NotRouting(k: Kind)
    ensures JsonTypeOf(k) !in NON_PROXY
  {
  }

  predicate IsReproduced(n: Node)
    requires NodeFits(n)
  {
    IsKept(OutboundOf(n).value)
  }

  /**
    A printed list of outbounds, decoded and read, gives as many nodes in the same order with nothing
    skipped; printing them again gives the same list of objects exactly when every node is one that
    comes back whole.
   */
  lemma {:induction false} DocumentIsFixed(nodes: seq<Node>)
    requires forall i :: 0 <= i < |nodes| ==> NodeFits(nodes[i])
    ensures var obs := DecodedAll(Outbounds(nodes));
            && SkippedIn(obs) == 0 && |NodesIn(obs)| == |nodes|
            && |Outbounds(NodesIn(obs))| == |Outbounds(nodes)| == |nodes|
            && (Outbounds(NodesIn(obs)) == Outbounds(nodes) <==>
                forall i :: 0 <= i < |nodes| ==> IsReproduced(nodes[i]))
    ensures forall i :: 0 <= i < |nodes| ==> NodesIn(DecodedAll(Outbounds(nodes)))[i].name == nodes[i].name
  {
    hide NodeFits, Rendered, OutboundRead, DecodedFields, JText, ToLower, IsReproduced;
    if nodes == [] {
      assert DecodedAll(Outbounds(nodes)) == [];
    } else {
      var n := |nodes| - 1;
      var last := nodes[n];
      DocumentIsFixed(nodes[..n]);
      LastIsFixed(last);
      var ob := Rendered(last).value;
      var front := DecodedAll(Outbounds(nodes[..n]));
      var p := OutboundRead(DecodedFields(ob)).value;
      assert DecodedAll(Outbounds(nodes)) == front + [DecodedFields(ob)];
      ReadSnoc(front, DecodedFields(ob));
      PrintSnoc(NodesIn(front), p);
      PrintSnoc(nodes[..n], last);
      assert nodes == nodes[..n] + [last];
      hide NodesIn, SkippedIn, Outbounds, DecodedAll;
      SnocSame(Outbounds(NodesIn(front)), Rendered(p).value, Outbounds(nodes[..n]), ob);
    }
  }

  lemma SnocSame(a: seq<Fields>, x: Fields, b: seq<Fields>, y: Fields)
    requires |a| == |b|
    ensures a + [x] == b + [y] <==> a == b && x == y
  {
    var s, t := a + [x], b + [y];
    assert s[..|a|] == a && t[..|b|] == b && s[|a|] == x && t[|b|] == y;
  }

  lemma LastIsFixed(n: Node)
    requires NodeFits(n)
    ensures Rendered(n).Some?
    ensures var d := DecodedFields(Rendered(n).value);
            && ToLower(JText(d, "type")) !in NON_PROXY && OutboundRead(d).Some?
            && OutboundRead(d).value.name == n.name && Rendered(OutboundRead(d).value).Some?
            && (Rendered(OutboundRead(d).value) == Rendered(n) <==> IsReproduced(n))
  {
    hide Fits, OutboundOf, OutboundRead, DecodedFields, Json, JText, ToLower, IsKept, Kept;
    OutboundBack(OutboundOf(n).value);
    RenderIsFixed(n);
    ProxyType(n);
  }

  lemma ReadSnoc(obs: seq<Fields>, ob: Fields)
    requires ToLower(JText(ob, "type")) !in NON_PROXY && OutboundRead(ob).Some?
    ensures NodesIn(obs + [ob]) == NodesIn(obs) + [OutboundRead(ob).value] && SkippedIn(obs + [ob]) == SkippedIn(obs)
  {
    hide OutboundRead, JText, ToLower;
    assert (obs + [ob])[..|obs|] == obs;
  }

  lemma PrintSnoc(nodes: seq<Node>, n: Node)
    ensures Outbounds(nodes + [n]) == Outbounds(nodes) + if Rendered(n).Some? then [Rendered(n).value] else []
  {
    hide Rendered;
    assert (nodes + [n])[..|nodes|] == nodes;
  }
}
