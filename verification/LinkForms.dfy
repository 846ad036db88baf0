/**
  Share links in the open: what every link of the documented shapes says, whoever wrote it
  (internal/parser/ss.go, internal/parser/ssr.go).
 */
module LinkForms {
  import opened Wrappers
  import opened Text
  import opened Decimal
  import opened Values
  import opened Accessors
  import opened Base64
  import opened Percent
  import opened LinkText
  import SS = SSLinks
  import SSR = SSRLinks

  // ---------- addresses ----------

  /** A host as a link spells it: as it is, or in brackets. */
  predicate Names(text: string, host: string)
  {
    (text == host && HostStarts(host)) || (text == "[" + host + "]" && ']' !in host)
  }

  lemma AddressReads(text: string, host: string, port: int)
    requires Names(text, host) && MIN_INT <= port <= MAX_INT
    ensures SplitHostPort(text + ":" + Itoa(port)) == HostPort(host, port)
  {
    if text == host && HostStarts(host) {
      SplitPrinted(host, port);
    } else {
      BracketsRead(host, port);
    }
    hide *;
  }

  lemma BracketsRead(host: string, port: int)
    requires ']' !in host && MIN_INT <= port <= MAX_INT
    ensures SplitHostPort("[" + host + "]" + ":" + Itoa(port)) == HostPort(host, port)
  {
    ItoaChars(port);
    AtoiPortOf(port);
    hide AtoiPort, TrimSpace, Trimmed, Itoa, Index;
    var digits := Itoa(port);
    var s := "[" + host + "]" + ":" + digits;
    GraphIsTrimmed(s);
    BracketsSplit(host, digits);
  }

  lemma BracketsSplit(host: string, digits: string)
    requires ']' !in host
    ensures var s := "[" + host + "]" + ":" + digits;
            && Index(s, ']') == |host| + 1 && "[" <= s && s[1..|host| + 1] == host
            && s[|host| + 2..] == ":" + digits && ":" <= s[|host| + 2..] && s[|host| + 2..][1..] == digits
  {
    hide Index;
    IndexAt("[" + host, ']', ":" + digits);
    assert "[" + host + [']'] + (":" + digits) == "[" + host + "]" + ":" + digits;
  }

  // ---------- shadowsocks ----------

  /** Credentials as a link spells them: in any variant of base64, or as they are. */
  ghost predicate Carries(u: string, cipher: string, password: string)
  {
    u == cipher + ":" + password || exists e: Encoding :: u == Encode(e, cipher + ":" + password)
  }

  lemma {:induction false} DecodedHasNoColon(e: Encoding, t: string)
    requires Quanta(e, t).Some?
    ensures ':' !in t
  {
    NoColonIn(e.url);
    if t != "" && |t| >= 4 && IsSymbol(e.url, t[0]) && IsSymbol(e.url, t[1]) && IsSymbol(e.url, t[2])
       && IsSymbol(e.url, t[3]) {
      QuantaStep(e, t);
      DecodedHasNoColon(e, t[4..]);
      assert t == [t[0], t[1], t[2], t[3]] + t[4..];
    }
    hide IsSymbol;
  }

  lemma NoColonIn(url: bool)
    ensures !IsSymbol(url, ':') && !IsSymbol(url, '=')
  {
  }

  lemma {:induction false} StrippedKeeps(s: string, c: char)
    requires c != '\n' && c != '\r' && c in s
    ensures c in StripNewlines(s)
  {
    if s[0] != c { StrippedKeeps(s[1..], c); }
  }

  lemma {:induction false} TrimLeftKeeps(s: string, c: char)
    requires IsGraph(c) && c in s
    ensures c in TrimLeft(s)
    decreases |s|
  {
    var n := SpacePrefix(s);
    if n > 0 {
      assert s == s[..n] + s[n..];
      assert c !in s[..n];
      TrimLeftKeeps(s[n..], c);
    }
  }

  lemma {:induction false} TrimRightKeeps(s: string, c: char)
    requires IsGraph(c) && c in s
    ensures c in TrimRight(s)
    decreases |s|
  {
    var n := SpaceSuffix(s);
    if n > 0 {
      assert s == s[..|s| - n] + s[|s| - n..];
      assert c !in s[|s| - n..];
      TrimRightKeeps(s[..|s| - n], c);
    }
  }

  /** A text with a colon is no base64, so plain credentials are taken as they are. */
  lemma ColonIsPlain(s: string)
    requires ':' in s
    ensures B64(s) == None
  {
    if B64(s).Some? {
      B64IsAnyVariant(s, B64(s).value);
      var e: Encoding :| Decode(e, TrimSpace(s)) == B64(s);
      TrimLeftKeeps(s, ':');
      TrimRightKeeps(TrimLeft(s), ':');
      StrippedKeeps(TrimSpace(s), ':');
      hide TrimSpace;
      DecodedHasNoColon(e, StripNewlines(TrimSpace(s)));
      assert false;
    }
  }

  lemma UserRead(u: string, cipher: string, password: string)
    requires Carries(u, cipher, password) && ':' !in cipher && IsBytes(cipher) && IsBytes(password)
    ensures SplitCred(if B64(u).Some? then B64(u).value else u) == Cred(cipher, password)
  {
    var text := cipher + ":" + password;
    CutAt(cipher, ':', password);
    assert cipher + [':'] + password == text;
    hide Cut, B64, Encode;
    if e: Encoding :| u == Encode(e, text) {
      B64OfEncode(e, text);
    } else {
      assert text[|cipher|] == ':';
      ColonIsPlain(u);
    }
  }

  /** The name of a node: the fragment's text, or the address when there is none to read. */
  function NameOr(fragment: Option<string>, host: string, port: int): string
  {
    var name := if fragment.Some? && QueryUnescape(fragment.value).Some?
                then TrimSpace(QueryUnescape(fragment.value).value) else "";
    if name == "" then host + ":" + Itoa(port) else name
  }

  function WithQuery(q: string): string { if q == "" then "" else "?" + q }

  function WithFragment(f: Option<string>): string { if f.None? then "" else "#" + f.value }

  /** A node with the fields of its link under the keys Clash knows them by. */
  ghost predicate IsSS(n: Node, name: string, host: string, port: int, cipher: string, password: string, spec: string)
  {
    && n.name == name && n.typ == "ss" && n.server == host && n.port == port
    && CS(n.clash, "server") == host && CI(n.clash, "port") == port
    && CS(n.clash, "cipher") == cipher && CS(n.clash, "password") == password
    && PluginIs(n.clash, spec)
  }

  /** The plugin a spec names first, with the options its other parts set. */
  predicate PluginIs(c: Fields, spec: string)
  {
    var parts := Split(spec, ';');
    if spec != "" && Contains(parts[0], "obfs") then
      CS(c, "plugin") == "obfs" && CMap(c, "plugin-opts") == SS.OptionsOf(parts[1..])
    else if spec != "" && Contains(parts[0], "v2ray") then
      CS(c, "plugin") == "v2ray-plugin" && CMap(c, "plugin-opts") == SS.OptionsOf(parts[1..])
    else "plugin" !in c && "plugin-opts" !in c
  }

  /** Which option each part of a plugin spec sets; the last one of an option stands. */
  lemma PartSets(parts: seq<string>, v: string)
    ensures SS.OptionsOf([]) == map[]
    ensures SS.OptionsOf(parts + ["obfs=" + v]) == SS.OptionsOf(parts)["mode" := Str(v)]
    ensures SS.OptionsOf(parts + ["obfs-host=" + v]) == SS.OptionsOf(parts)["host" := Str(v)]
    ensures SS.OptionsOf(parts + ["mode=" + v]) == SS.OptionsOf(parts)["mode" := Str(v)]
    ensures SS.OptionsOf(parts + ["host=" + v]) == SS.OptionsOf(parts)["host" := Str(v)]
    ensures SS.OptionsOf(parts + ["path=" + v]) == SS.OptionsOf(parts)["path" := Str(v)]
    ensures SS.OptionsOf(parts + ["tls"]) == SS.OptionsOf(parts)["tls" := Bool(true)]
  {
    SS.OptionsNone();
    SS.OptionOf("obfs", "mode", v);
    SS.OptionOf("obfs-host", "host", v);
    SS.OptionOf("mode", "mode", v);
    SS.OptionOf("host", "host", v);
    SS.OptionOf("path", "path", v);
    SS.TlsOption();
    hide SS.OptionSet, SS.OptionsOf;
    assert "obfs" + "=" == "obfs=" && "obfs-host" + "=" == "obfs-host=" && "mode" + "=" == "mode=";
    assert "host" + "=" == "host=" && "path" + "=" == "path=";
    SS.OptionsSnoc(parts, "obfs=" + v);
    SS.OptionsSnoc(parts, "obfs-host=" + v);
    SS.OptionsSnoc(parts, "mode=" + v);
    SS.OptionsSnoc(parts, "host=" + v);
    SS.OptionsSnoc(parts, "path=" + v);
    SS.OptionsSnoc(parts, "tls");
  }

  lemma BuiltIsSS(name: string, host: string, port: int, cipher: string, password: string, spec: string)
    ensures IsSS(SS.SSNode(name, host, port, cipher, password, spec), name, host, port, cipher, password, spec)
  {
    hide With, CS, CI, CMap, Split, Contains, SS.OptionsOf;
    var c := SS.Base(name, host, port, cipher, password);
    SS.ReadBase(name, host, port, cipher, password);
    var n := SS.SSNode(name, host, port, cipher, password, spec);
    assert n.name == name && n.typ == "ss" && n.server == host && n.port == port;
    assert n.clash == if spec != "" then SS.WithPlugin(c, spec) else c;
    hide SS.Base, SS.SSNode;
    PluginKeeps(c, spec, "server");
    PluginKeeps(c, spec, "port");
    PluginKeeps(c, spec, "cipher");
    PluginKeeps(c, spec, "password");
    hide SS.WithPlugin, PluginIs;
  }

  /** A plugin leaves the other fields as they are. */
  lemma PluginKeeps(c: Fields, spec: string, k: string)
    requires "plugin" !in c && "plugin-opts" !in c && k in {"server", "port", "cipher", "password"}
    ensures var d := if spec != "" then SS.WithPlugin(c, spec) else c;
            CS(d, k) == CS(c, k) && CI(d, k) == CI(c, k) && PluginIs(d, spec)
  {
    hide CS, CI, CMap, Split, Contains, SS.OptionsOf;
    var options := SS.OptionsOf(Split(spec, ';')[1..]);
    SS.ReadWithOptions(c, "obfs", options, k);
    SS.ReadWithOptions(c, "v2ray-plugin", options, k);
  }

  /** Characters with a meaning of their own in a link. */
  predicate IsMark(c: char) { c in {'@', '?', '#'} }

  predicate NoMarks(s: string) { forall i :: 0 <= i < |s| ==> !IsMark(s[i]) }

  lemma EncodedHasNoMarks(e: Encoding, s: string)
    requires IsBytes(s)
    ensures NoMarks(Encode(e, s))
  {
    EncodeIsCode(e, s);
    var t := Encode(e, s);
    forall i | 0 <= i < |t|
      ensures !IsMark(t[i])
    {
      assert IsCode(e.url, t[i]);
    }
  }

  lemma AddressHasNoMarks(text: string, port: int)
    requires NoMarks(text)
    ensures NoMarks(text + ":" + Itoa(port))
  {
    ItoaChars(port);
    hide Itoa;
  }

  /** A link is cut at its fragment first. */
  lemma FragmentCut(body: string, f: Option<string>)
    requires '#' !in body
    ensures Cut(TrimPrefix("ss://" + body + WithFragment(f), "ss://"), '#') ==
            CutResult(body, if f.Some? then f.value else "", f.Some?)
  {
    hide Cut;
    if f.Some? {
      SS.CutLink(body, f.value);
      assert "ss://" + body + ("#" + f.value) == "ss://" + (body + "#" + f.value);
    } else {
      SS.CutNone(body, '#');
      assert "ss://" + body + "" == "ss://" + body && ("ss://" + body)[5..] == body;
    }
  }

  /** What the reader does once it knows the body. */
  lemma BodyGives(body: string, f: Option<string>, cipher: string, password: string, host: string, port: int, q: string)
    requires '#' !in body && host != "" && port != 0 && cipher != ""
    requires SS.BodyOf(body) == SS.Body(Cred(cipher, password), HostPort(host, port), q)
    ensures var n := SS.Parsed("ss://" + body + WithFragment(f));
            n.Some? && IsSS(n.value, NameOr(f, host, port), host, port, cipher, password, Get(ParseQuery(q), "plugin"))
  {
    hide SS.BodyOf, Cut, TrimPrefix, IsSS, SS.SSNode, ParseQuery, Get, QueryUnescape, TrimSpace, Itoa;
    FragmentCut(body, f);
    BuiltIsSS(NameOr(f, host, port), host, port, cipher, password, Get(ParseQuery(q), "plugin"));
  }

  /**
    A SIP002 link: credentials, '@', address, perhaps a query and a fragment. It says those credentials and that
    address, the plugin its query names and the name its fragment spells.
   */
  lemma SipForm(u: string, cipher: string, password: string, text: string, host: string, port: int, q: string,
                f: Option<string>)
    requires Carries(u, cipher, password) && '#' !in u && cipher != "" && ':' !in cipher
    requires IsBytes(cipher) && IsBytes(password) && Names(text, host) && host != "" && NoMarks(text) && IsPort(port)
    requires '@' !in q && '#' !in q
    ensures var n := SS.Parsed("ss://" + (u + "@" + (text + ":" + Itoa(port) + WithQuery(q))) + WithFragment(f));
            n.Some? && IsSS(n.value, NameOr(f, host, port), host, port, cipher, password, Get(ParseQuery(q), "plugin"))
  {
    hide IsSS, Carries, SplitCred, SplitHostPort, Names, SS.BodyOf, SS.Sip002, Itoa, NameOr, B64;
    var hp := text + ":" + Itoa(port);
    AddressHasNoMarks(text, port);
    AddressReads(text, host, port);
    UserRead(u, cipher, password);
    var hostpart := hp + WithQuery(q);
    WithoutMarks(hp, q);
    SS.SplitAtUser(u, hostpart);
    SS.HostPartRead(hp, q);
    SipBody(u, hp, q);
    var body := u + "@" + hostpart;
    BodyGives(body, f, cipher, password, host, port, q);
  }

  lemma SipBody(u: string, hp: string, q: string)
    requires Cut(hp + (if q != "" then "?" + q else ""), '?') == CutResult(hp, q, q != "")
    ensures SS.Sip002(u, hp + WithQuery(q)) ==
            SS.Body(SplitCred(if B64(u).Some? then B64(u).value else u), SplitHostPort(hp), q)
  {
    hide Cut, B64, SplitCred, SplitHostPort;
    assert WithQuery(q) == if q != "" then "?" + q else "";
  }

  lemma WithoutMarks(hp: string, q: string)
    requires NoMarks(hp) && '@' !in q && '#' !in q
    ensures '?' !in hp && '@' !in hp + WithQuery(q) && '#' !in hp + WithQuery(q)
  {
  }

  /** A link of the older form: the same in one piece of base64, with any query behind it. */
  lemma LegacyForm(e: Encoding, cipher: string, password: string, text: string, host: string, port: int, q: string,
                   f: Option<string>)
    requires cipher != "" && ':' !in cipher && IsBytes(cipher) && IsBytes(password)
    requires Names(text, host) && host != "" && '@' !in text && IsBytes(text) && IsPort(port)
    requires '@' !in q && '#' !in q
    ensures var n := SS.Parsed("ss://" + (Encode(e, cipher + ":" + password + "@" + (text + ":" + Itoa(port)))
                                          + WithQuery(q)) + WithFragment(f));
            n.Some? && IsSS(n.value, NameOr(f, host, port), host, port, cipher, password, Get(ParseQuery(q), "plugin"))
  {
    hide IsSS, SplitCred, SplitHostPort, Names, SS.BodyOf, SS.Legacy, Itoa, NameOr, B64, Encode;
    var hp := text + ":" + Itoa(port);
    AddressReads(text, host, port);
    AddressIsBytes(text, port);
    var cred := cipher + ":" + password;
    var plain := cred + "@" + hp;
    var code := Encode(e, plain);
    EncodedHasNoMarks(e, plain);
    WithoutMarks(code, q);
    B64OfEncode(e, plain);
    B64TextOf(code);
    LegacyBody(code, q, cred, hp);
    CredCut(cipher, password);
    hide Cut;
    NoUserIn(code + WithQuery(q));
    BodyGives(code + WithQuery(q), f, cipher, password, host, port, q);
  }

  lemma CredCut(cipher: string, password: string)
    requires ':' !in cipher
    ensures SplitCred(cipher + ":" + password) == Cred(cipher, password)
  {
    CutAt(cipher, ':', password);
    hide Cut;
    assert cipher + [':'] + password == cipher + ":" + password;
  }

  lemma AddressIsBytes(text: string, port: int)
    requires IsBytes(text) && '@' !in text
    ensures IsBytes(text + ":" + Itoa(port)) && '@' !in text + ":" + Itoa(port)
  {
    ItoaChars(port);
    hide Itoa;
  }

  lemma NoUserIn(s: string)
    requires '@' !in s
    ensures SS.BodyOf(s) == SS.Legacy(s)
  {
    hide SS.Legacy, SS.Sip002;
  }

  lemma LegacyBody(code: string, q: string, cred: string, hp: string)
    requires '?' !in code && '@' !in hp && B64Text(code) == cred + "@" + hp
    ensures SS.Legacy(code + WithQuery(q)) == SS.Body(SplitCred(cred), SplitHostPort(hp), q)
  {
    hide Cut, B64, B64Text, SplitCred, SplitHostPort;
    SS.HostPartRead(code, q);
    assert WithQuery(q) == if q != "" then "?" + q else "";
    LastIndexAt(cred, '@', hp);
    var dec := cred + ['@'] + hp;
    assert dec == cred + "@" + hp;
    hide LastIndex;
    assert dec[..|cred|] == cred && dec[|cred| + 1..] == hp;
  }

  // ---------- shadowsocksr ----------

  predicate IsField(s: string) { ':' !in s && '?' !in s && IsBytes(s) }

  /** The body of an ssr link: six fields between colons, the password coded again, and perhaps a query. */
  function SSRBody(host: string, port: int, protocol: string, cipher: string, obfs: string, code: string, q: string)
    : string
  {
    host + ":" + Itoa(port) + ":" + protocol + ":" + cipher + ":" + obfs + ":" + code
    + (if q != "" then "/?" + q else "")
  }

  function Param(q: string, key: string): string { B64Text(Get(ParseQuery(q), key)) }

  /** The name the query gives, or the address. */
  function SSRName(q: string, host: string, port: int): string
  {
    var remarks := TrimSpace(Param(q, "remarks"));
    if remarks == "" then host + ":" + Itoa(port) else remarks
  }

  ghost predicate IsSSR(n: Node, host: string, port: int, protocol: string, cipher: string, obfs: string,
                        password: string, q: string)
  {
    Holds(n, SSRName(q, host, port), host, port, cipher, password, protocol, obfs, Param(q, "protoparam"),
          Param(q, "obfsparam"))
  }

  /** An ssr link in any variants of base64 says the fields of its body and the parameters of its query. */
  lemma SSRForm(e: Encoding, inner: Encoding, host: string, port: int, protocol: string, cipher: string, obfs: string,
                password: string, q: string)
    requires host != "" && IsField(host) && IsPort(port) && IsField(protocol) && IsField(cipher) && IsField(obfs)
    requires IsBytes(password) && IsBytes(q)
    ensures var body := SSRBody(host, port, protocol, cipher, obfs, Encode(inner, password), q);
            var n := SSR.Parsed("ssr://" + Encode(e, body));
            n.Some? && IsSSR(n.value, host, port, protocol, cipher, obfs, password, q)
  {
    var code := Encode(inner, password);
    PasswordRead(inner, password);
    hide Encode, IsSSR, B64, B64Text, Itoa, SSR.NodeOf, SSRBody, SSR.Parsed, SSR.FieldFits;
    var body := SSRBody(host, port, protocol, cipher, obfs, code, q);
    BodySplits(host, port, protocol, cipher, obfs, code, q);
    hide SSR.SplitBody, Split;
    B64OfEncode(e, body);
    FieldsGive(host, port, protocol, cipher, obfs, code, password, q);
    BodyParses(Encode(e, body), body, [host, Itoa(port), protocol, cipher, obfs, code], q);
  }

  lemma BodySplits(host: string, port: int, protocol: string, cipher: string, obfs: string, code: string, q: string)
    requires IsField(host) && IsField(protocol) && IsField(cipher) && IsField(obfs) && SSR.FieldFits(code) && IsBytes(q)
    ensures var body, p := SSRBody(host, port, protocol, cipher, obfs, code, q),
                SSR.SplitBody(SSRBody(host, port, protocol, cipher, obfs, code, q));
            IsBytes(body) && p.query == q && Split(p.head, ':') == [host, Itoa(port), protocol, cipher, obfs, code]
  {
    hide Itoa, SSR.SplitBody, Split;
    SSR.PortFits(port);
    var head := host + ":" + Itoa(port) + ":" + protocol + ":" + cipher + ":" + obfs + ":" + code;
    SSR.ColonFields(host, Itoa(port), protocol, cipher, obfs, code);
    HeadSplits(head, q);
    BodyIsBytes(head, q);
  }

  lemma BodyParses(code: string, body: string, f: seq<string>, q: string)
    requires B64(code) == Some(body) && |f| == 6
    requires SSR.SplitBody(body).query == q && Split(SSR.SplitBody(body).head, ':') == f
    ensures SSR.Parsed("ssr://" + code) == SSR.NodeOf(f, q)
  {
    hide B64, SSR.SplitBody, Split, SSR.NodeOf;
    assert ("ssr://" + code)[6..] == code;
  }

  lemma BodyIsBytes(head: string, q: string)
    requires IsBytes(head) && IsBytes(q)
    ensures IsBytes(head + if q != "" then "/?" + q else "")
  {
  }

  lemma PasswordRead(e: Encoding, password: string)
    requires IsBytes(password)
    ensures B64Text(Encode(e, password)) == password && SSR.FieldFits(Encode(e, password))
  {
    hide B64, Encode, AllCode, SSR.FieldFits;
    B64OfEncode(e, password);
    EncodeIsCode(e, password);
    CodeIsField(e.url, Encode(e, password));
  }

  lemma CodeIsField(url: bool, t: string)
    requires AllCode(url, t)
    ensures SSR.FieldFits(t)
  {
    forall i | 0 <= i < |t|
      ensures t[i] as int < 256 && t[i] != ':' && t[i] != '?'
    {
      assert IsCode(url, t[i]);
    }
  }

  lemma HeadSplits(head: string, q: string)
    requires '?' !in head
    ensures SSR.SplitBody(head + if q != "" then "/?" + q else "") == SSR.Parts(head, q)
  {
    hide SSR.SplitBody;
    if q != "" {
      SSR.BodySplits(head, q);
      Regroup(head, "/?", q);
    } else {
      assert head + "" == head;
      NoQuery(head);
    }
  }

  lemma NoQuery(head: string)
    requires '?' !in head
    ensures SSR.SplitBody(head) == SSR.Parts(head, "")
  {
    var i := IndexOf(head, "/?");
    if i >= 0 { QueryIn(head, i); }
    hide IndexOf, Index;
  }

  lemma QueryIn(s: string, i: nat)
    requires i <= |s| && "/?" <= s[i..]
    ensures '?' in s
  {
    assert s[i..][1] == s[i + 1];
  }

  lemma FieldsGive(host: string, port: int, protocol: string, cipher: string, obfs: string, code: string,
                   password: string, q: string)
    requires host != "" && IsPort(port) && B64Text(code) == password
    ensures var n := SSR.NodeOf([host, Itoa(port), protocol, cipher, obfs, code], q);
            n.Some? && IsSSR(n.value, host, port, protocol, cipher, obfs, password, q)
  {
    hide B64Text, IsPort, Holds, SSRName, Param, SSR.NodeOf, SSR.SSRNode, Itoa;
    var name := SSRName(q, host, port);
    FieldsBuild(host, port, protocol, cipher, obfs, code, q);
    BuiltIsSSR(name, host, port, cipher, password, protocol, obfs, Param(q, "protoparam"), Param(q, "obfsparam"));
  }

  lemma FieldsBuild(host: string, port: int, protocol: string, cipher: string, obfs: string, code: string, q: string)
    requires host != "" && IsPort(port)
    ensures SSR.NodeOf([host, Itoa(port), protocol, cipher, obfs, code], q) ==
            Some(SSR.SSRNode(SSRName(q, host, port), host, port, cipher, B64Text(code), protocol, obfs,
                             Param(q, "protoparam"), Param(q, "obfsparam")))
  {
    AtoiPortOf(port);
    assert port != 0;
    hide *;
    var f := [host, Itoa(port), protocol, cipher, obfs, code];
    assert |f| == 6 && f[0] == host && f[1] == Itoa(port) && f[2] == protocol && f[3] == cipher && f[4] == obfs
           && f[5] == code;
    SixFields(f, port, q);
  }

  lemma SixFields(f: seq<string>, port: int, q: string)
    requires |f| == 6 && AtoiPort(f[1]) == port && port != 0 && f[0] != ""
    ensures SSR.NodeOf(f, q) == Some(SSR.SSRNode(SSRName(q, f[0], port), f[0], port, f[3], B64Text(f[5]), f[2], f[4],
                                                 Param(q, "protoparam"), Param(q, "obfsparam")))
  {
    hide Itoa, B64Text, AtoiPort, ParseQuery, Get, TrimSpace, SSR.SSRNode, Join;
    LastOfSix(f);
  }

  lemma LastOfSix(f: seq<string>)
    requires |f| == 6
    ensures Join(f[5..], ":") == f[5]
  {
    assert f[5..] == [f[5]];
    JoinOne(f[5], ":");
    hide Join;
  }

  /** What a built node holds, all fields at once. */
  ghost predicate Holds(n: Node, name: string, host: string, port: int, cipher: string, password: string,
                        protocol: string, obfs: string, protoParam: string, obfsParam: string)
  {
    && n.name == name && n.typ == "ssr" && n.server == host && n.port == port
    && CS(n.clash, "server") == host && CI(n.clash, "port") == port
    && CS(n.clash, "protocol") == protocol && CS(n.clash, "cipher") == cipher && CS(n.clash, "obfs") == obfs
    && CS(n.clash, "password") == password
    && CS(n.clash, "protocol-param") == protoParam && CS(n.clash, "obfs-param") == obfsParam
  }

  lemma BuiltIsSSR(name: string, host: string, port: int, cipher: string, password: string, protocol: string,
                   obfs: string, protoParam: string, obfsParam: string)
    ensures Holds(SSR.SSRNode(name, host, port, cipher, password, protocol, obfs, protoParam, obfsParam),
                  name, host, port, cipher, password, protocol, obfs, protoParam, obfsParam)
  {
    hide With, CS, CI, SSR.SSRNode;
    SSR.ReadBuilt(name, host, port, cipher, password, protocol, obfs, protoParam, obfsParam, "server");
    SSR.ReadBuilt(name, host, port, cipher, password, protocol, obfs, protoParam, obfsParam, "port");
    SSR.ReadBuilt(name, host, port, cipher, password, protocol, obfs, protoParam, obfsParam, "cipher");
    SSR.ReadBuilt(name, host, port, cipher, password, protocol, obfs, protoParam, obfsParam, "password");
    SSR.ReadBuilt(name, host, port, cipher, password, protocol, obfs, protoParam, obfsParam, "protocol");
    SSR.ReadBuilt(name, host, port, cipher, password, protocol, obfs, protoParam, obfsParam, "obfs");
    SSR.ReadBuilt(name, host, port, cipher, password, protocol, obfs, protoParam, obfsParam, "protocol-param");
    SSR.ReadBuilt(name, host, port, cipher, password, protocol, obfs, protoParam, obfsParam, "obfs-param");
    BuiltShape(name, host, port, cipher, password, protocol, obfs, protoParam, obfsParam);
  }

  lemma BuiltShape(name: string, host: string, port: int, cipher: string, password: string, protocol: string,
                   obfs: string, protoParam: string, obfsParam: string)
    ensures var n := SSR.SSRNode(name, host, port, cipher, password, protocol, obfs, protoParam, obfsParam);
            n.name == name && n.typ == "ssr" && n.server == host && n.port == port
  {
    hide With;
  }
}
