/**
  What the options do to a node (internal/generator/clash.go, applyNodeOptions), key by key, what that
  means for the nodes that come out of the pipeline (internal/generator/common.go, prepareNodes), and what
  the pipeline's tests, signature and order mean in a node's own fields.
 */
module NodeStamps {
  import opened Wrappers
  import opened Text
  import opened Values
  import opened UniqueNames
  import opened PrepareNodes

  function At(m: Fields, k: string): Option<Value> { if k in m then Some(m[k]) else None }

  /** A switched-on option sets its key to true; else the key is as it was. */
  predicate FlagKept(was: Fields, now: Fields, key: string, on: bool)
  {
    At(now, key) == if on then Some(Bool(true)) else At(was, key)
  }

  /** Every field but the name. */
  ghost predicate FieldsStamped(o: Options, was: Node, now: Node)
  {
    && FlagKept(was.clash, now.clash, "udp", o.udp)
    && FlagKept(was.clash, now.clash, "tfo", o.tfo)
    && FlagKept(was.clash, now.clash, "skip-cert-verify", o.skipCertVerify)
    && (forall k :: k !in {"name", "udp", "tfo", "skip-cert-verify"} ==> At(now.clash, k) == At(was.clash, k))
    && now.typ == was.typ && now.server == was.server && now.port == was.port
  }

  /** The naming steps that are switched on, in their order. */
  function NamingSteps(o: Options, n: Node): seq<string -> string>
  {
    (if o.appendType && n.typ != "" then [(name: string) => "[" + ToUpper(n.typ) + "] " + name] else [])
    + (if o.removeEmoji.Some? then [o.removeEmoji.value] else [])
    + o.renames
    + (if o.addEmoji.Some? then [o.addEmoji.value] else [])
  }

  /** Each step acts on the name the one before it left. */
  function Applied(steps: seq<string -> string>, name: string): string
  {
    if steps == [] then name else
    var n := |steps| - 1;
    steps[n](Applied(steps[..n], name))
  }

  lemma {:induction false} AppliedConcat(a: seq<string -> string>, b: seq<string -> string>, name: string)
    ensures Applied(a + b, name) == Applied(b, Applied(a, name))
  {
    if b == [] {
      assert a + b == a;
    } else {
      var n := |b| - 1;
      assert (a + b)[..|a + b| - 1] == a + b[..n];
      AppliedConcat(a, b[..n], name);
    }
  }

  lemma {:induction false} RewrittenIsApplied(name: string, renames: seq<string -> string>)
    ensures Rewritten(name, renames) == Applied(renames, name)
    decreases |renames|
  {
    if renames != [] {
      RewrittenIsApplied(renames[0](name), renames[1..]);
      assert renames == [renames[0]] + renames[1..];
      AppliedConcat([renames[0]], renames[1..], name);
      AppliedOne(renames[0], name);
    }
  }

  lemma AppliedOne(step: string -> string, name: string)
    ensures Applied([step], name) == step(name)
  {
    assert [step][..0] == [];
    assert Applied([], name) == name;
  }

  lemma AppliedMaybe(on: bool, step: string -> string, name: string)
    ensures Applied(if on then [step] else [], name) == if on then step(name) else name
  {
    if on { AppliedOne(step, name); }
  }

  lemma StampedNameIsApplied(o: Options, n: Node)
    ensures StampedName(o, n) == Applied(NamingSteps(o, n), n.name)
    ensures Renames(o, n) <==> NamingSteps(o, n) != []
  {
    var tag := (name: string) => "[" + ToUpper(n.typ) + "] " + name;
    var same := (name: string) => name;
    var off := o.appendType && n.typ != "";
    var a := if off then [tag] else [];
    var b := if o.removeEmoji.Some? then [o.removeEmoji.value] else [];
    var d := if o.addEmoji.Some? then [o.addEmoji.value] else [];
    assert NamingSteps(o, n) == a + b + o.renames + d;
    AppliedConcat(a + b + o.renames, d, n.name);
    AppliedConcat(a + b, o.renames, n.name);
    AppliedConcat(a, b, n.name);
    AppliedMaybe(off, tag, n.name);
    var typed := Applied(a, n.name);
    AppliedMaybe(o.removeEmoji.Some?, if o.removeEmoji.Some? then o.removeEmoji.value else same, typed);
    var bare := Applied(b, typed);
    RewrittenIsApplied(bare, o.renames);
    AppliedMaybe(o.addEmoji.Some?, if o.addEmoji.Some? then o.addEmoji.value else same, Rewritten(bare, o.renames));
    hide Applied, Rewritten, ToUpper;
  }

  /**
    One node under the options: the three flags, every other field as it was, and the name that the naming
    steps give, kept in the bag as well; without any naming step the name is not touched.
   */
  lemma StampMeans(o: Options, n: Node)
    ensures var s := Stamped(o, n);
            && FieldsStamped(o, n, s) && s.name == Applied(NamingSteps(o, n), n.name)
            && At(s.clash, "name") == if NamingSteps(o, n) == [] then At(n.clash, "name") else Some(Str(s.name))
  {
    hide Applied, Rewritten, ToUpper, NamingSteps, Renames, StampedName, Stamped, Flagged, FieldsStamped;
    StampedNameIsApplied(o, n);
    StampSplits(o, n);
    var named := if Renames(o, n) then n.Renamed(StampedName(o, n)) else n;
    FlagsMean(o, named.clash);
    NamedStamp(o, n, StampedName(o, n), Renames(o, n));
    NoSteps(n.name);
  }

  lemma NoSteps(name: string)
    ensures Applied([], name) == name
  {
  }

  lemma StampSplits(o: Options, n: Node)
    ensures var named := if Renames(o, n) then n.Renamed(StampedName(o, n)) else n;
            Stamped(o, n) == named.(clash := Flagged(o, named.clash))
  {
    hide StampedName, Renames;
  }

  /** The flags on a node that has its new name already. */
  lemma NamedStamp(o: Options, n: Node, name: string, renamed: bool)
    ensures var named := if renamed then n.Renamed(name) else n;
            var s := named.(clash := Flagged(o, named.clash));
            && FieldsStamped(o, n, s) && s.name == (if renamed then name else n.name)
            && At(s.clash, "name") == if renamed then Some(Str(name)) else At(n.clash, "name")
  {
    var named := if renamed then n.Renamed(name) else n;
    FlagsMean(o, named.clash);
    hide Flagged;
  }

  function Flagged(o: Options, c: Fields): Fields
  {
    var c1 := if o.udp then c["udp" := Bool(true)] else c;
    var c2 := if o.tfo then c1["tfo" := Bool(true)] else c1;
    if o.skipCertVerify then c2["skip-cert-verify" := Bool(true)] else c2
  }

  lemma FlagsMean(o: Options, c: Fields)
    ensures var d := Flagged(o, c);
            && FlagKept(c, d, "udp", o.udp) && FlagKept(c, d, "tfo", o.tfo)
            && FlagKept(c, d, "skip-cert-verify", o.skipCertVerify)
            && forall k :: k !in {"udp", "tfo", "skip-cert-verify"} ==> At(d, k) == At(c, k)
  {
  }

  /** In particular: no naming option, no new name; the type tag alone puts the upper-case type before it. */
  lemma PlainStamps(o: Options, n: Node)
    requires o.removeEmoji.None? && o.renames == [] && o.addEmoji.None?
    ensures Stamped(o, n).name == if o.appendType && n.typ != "" then "[" + ToUpper(n.typ) + "] " + n.name else n.name
  {
  }

  // ---------- out of the pipeline ----------

  lemma FieldsKeep(o: Options, was: Node, now: Node, name: string)
    requires FieldsStamped(o, was, now)
    ensures FieldsStamped(o, was, now.Renamed(name))
  {
    assert "udp" != "name" && "tfo" != "name" && "skip-cert-verify" != "name";
  }

  /** Every node that comes out is one of the inputs with its fields stamped key by key; only its name may differ. */
  lemma OutputFields(vs: seq<Node>, o: Options, k: nat)
    requires k < |Prepared(vs, o)|
    ensures var it := Prepared(vs, o)[k]; it.ix < |vs| && FieldsStamped(o, vs[it.ix], it.node)
  {
    ArrangedAreSurvivors(vs, o);
    var order := Arranged(vs, o);
    var items := Finished(o, order);
    var n, name := order[k].node, Unique(ItemNames(items))[k];
    hide Arranged, Survivors, Unique, Stamped, FieldsStamped;
    StampMeans(o, n);
    var st := Stamped(o, n);
    FieldsKeep(o, n, st, Sanitize(st.name));
    FieldsKeep(o, n, Cleaned(st), name);
    assert Prepared(vs, o)[k] == Item(order[k].ix, Named(Cleaned(st), name));
    hide Prepared;
  }

  /** The name each survivor is to have, before names are made distinct. */
  function WantedName(o: Options, n: Node): string
  {
    var name := Applied(NamingSteps(o, n), n.name);
    if '\r' in name || '\n' in name then Sanitize(name) else name
  }

  function WantedNames(o: Options, items: seq<Item>): (r: seq<string>)
    ensures |r| == |items|
  {
    seq(|items|, k requires 0 <= k < |items| => WantedName(o, items[k].node))
  }

  /** Line feeds become spaces, carriage returns go, every other character stays. */
  lemma SanitizeMeans(name: string, c: char)
    ensures Sanitize("") == ""
    ensures Sanitize(name + [c]) == Sanitize(name) + match c case '\r' => "" case '\n' => " " case _ => [c]
  {
    ReplaceSnoc(name, c, '\r', "");
    var bare := ReplaceChar(name, '\r', "");
    if c != '\r' { ReplaceSnoc(bare, c, '\n', " "); } else { assert bare + "" == bare; }
  }

  lemma {:induction false} ReplaceSnoc(s: string, c: char, d: char, sub: string)
    ensures ReplaceChar(s + [c], d, sub) == ReplaceChar(s, d, sub) + if c == d then sub else [c]
  {
    if s == "" {
      assert [c][1..] == "";
      assert ReplaceChar("", d, sub) == "";
      assert s + [c] == [c];
    } else {
      assert (s + [c])[1..] == s[1..] + [c];
      ReplaceSnoc(s[1..], c, d, sub);
    }
  }

  /** The names that come out are the wanted ones, made distinct. */
  lemma OutputNames(vs: seq<Node>, o: Options)
    ensures |ItemNames(Prepared(vs, o))| == |Arranged(vs, o)|
    ensures ItemNames(Prepared(vs, o)) == Unique(WantedNames(o, Arranged(vs, o)))
  {
    var order := Arranged(vs, o);
    hide Arranged, Unique, NamingSteps, Applied, Sanitize, Stamped;
    var items := Finished(o, order);
    forall k | 0 <= k < |order|
      ensures items[k].node.name == WantedName(o, order[k].node)
    {
      StampMeans(o, order[k].node);
    }
    assert ItemNames(items) == WantedNames(o, order);
    NamedNames(items);
    hide Finished, WantedName, WantedNames, ItemNames, Uniquified;
  }

  lemma NamedNames(items: seq<Item>)
    ensures ItemNames(Uniquified(items)) == Unique(ItemNames(items))
  {
    hide Unique;
  }

  // ---------- who is kept, and in which order ----------

  function CipherOf(n: Node): string
  {
    match At(n.clash, "cipher")
    case Some(Str(s)) => s
    case _ => ""
  }

  /** Which inputs pass the three filters, in terms of their type, name and cipher. */
  lemma PassesIff(o: Options, n: Node)
    ensures Passes(o, n) <==>
            && ToLower(TrimSpace(n.typ)) !in o.excluded && o.canonical(ToLower(TrimSpace(n.typ))) !in o.excluded
            && (forall i :: 0 <= i < |o.excludeRemarks| ==> !o.excludeRemarks[i](n.name))
            && (o.includeRemarks != [] ==> exists i :: 0 <= i < |o.includeRemarks| && o.includeRemarks[i](n.name))
            && (o.filterDeprecated && n.typ == "ss" && CipherOf(n) != "" ==>
                ToLower(CipherOf(n)) in o.supportedCiphers)
  {
    hide ToLower, TrimSpace;
  }

  function Rendered(m: Fields, k: string): Option<Value> { if k in m then Some(Plain(m[k])) else None }

  /** Two nodes are twins exactly when every key but the name is rendered alike in both, or missing in both. */
  lemma TwinsIff(a: Node, b: Node)
    ensures Signature(a) == Signature(b) <==> forall k :: k != "name" ==> Rendered(a.clash, k) == Rendered(b.clash, k)
  {
    hide Plain;
    var s, t := Signature(a), Signature(b);
    forall k | k != "name"
      ensures Rendered(a.clash, k) == (if k in s then Some(s[k]) else None)
      ensures Rendered(b.clash, k) == (if k in t then Some(t[k]) else None)
    {
    }
    assert "name" !in s && "name" !in t;
    if forall k :: k != "name" ==> Rendered(a.clash, k) == Rendered(b.clash, k) {
      assert forall k :: k in s <==> k in t;
    }
  }

  /** Scalars are rendered alike only when they are the same text, switch or number. */
  lemma ScalarsTell(s: string, t: string, m: int, n: int, x: real, p: bool, q: bool)
    ensures Plain(Str(s)) == Plain(Str(t)) <==> s == t
    ensures Plain(Int(m)) == Plain(Int(n)) <==> m == n
    ensures Plain(Bool(p)) == Plain(Bool(q)) <==> p == q
    ensures Plain(Float(x)) == Plain(Int(n)) <==> x == n as real && -1000000 < n < 1000000
    ensures Plain(Str(s)) != Plain(Int(n)) && Plain(Str(s)) != Plain(Bool(p)) && Plain(Int(n)) != Plain(Bool(p))
  {
  }

  /** The first place where two strings differ, or the end of the shorter one. */
  function Common(a: string, b: string): (k: nat)
    ensures k <= |a| && k <= |b| && a[..k] == b[..k]
    ensures k < |a| && k < |b| ==> a[k] != b[k]
  {
    if a == "" || b == "" || a[0] != b[0] then 0
    else
      var k := Common(a[1..], b[1..]);
      assert a[..k + 1] == [a[0]] + a[1..][..k] && b[..k + 1] == [b[0]] + b[1..][..k];
      k + 1
  }

  /** Names are compared byte by byte: the first difference decides, and a proper prefix comes first. */
  lemma {:induction false} LessIff(a: string, b: string)
    ensures var k := Common(a, b);
            Less(a, b) <==> k < |b| && (k == |a| || a[k] < b[k])
    decreases |a|
  {
    if a != "" && b != "" && a[0] == b[0] { LessIff(a[1..], b[1..]); }
  }
}
