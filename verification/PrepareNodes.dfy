/**
  The node pipeline every target shares (internal/generator/common.go, prepareNodes, with the
  filters of internal/generator/clash.go): drop nil nodes, clean names, exclude protocols, filter by
  remarks, drop deprecated ciphers, drop duplicates, sort, stamp options, make names distinct.

  Regular expressions, emoji tables and the protocol alias table are function-valued options.
 */
module PrepareNodes {
  import opened Wrappers
  import opened Text
  import opened Values
  import opened UniqueNames

  datatype Options = Options(
    excluded: set<string>,                   // the parsed exclusion lists
    canonical: string -> string,             // protocol name to canonical form
    excludeRemarks: seq<string -> bool>,
    includeRemarks: seq<string -> bool>,
    filterDeprecated: bool,
    supportedCiphers: set<string>,
    dedup: bool,
    sort: bool,
    appendType: bool,
    removeEmoji: Option<string -> string>,
    renames: seq<string -> string>,
    addEmoji: Option<string -> string>,
    udp: bool,
    tfo: bool,
    skipCertVerify: bool
  )

  datatype Counts = Counts(nodeCount: nat, excludedProtocols: nat, remarkFiltered: nat, deprecatedDropped: nat,
                           duplicates: nat)

  /** A node together with its place among the non-nil inputs. */
  datatype Item = Item(ix: nat, node: Node)

  // ---------- the filters on one node ----------

  function Sanitize(name: string): string
  {
    ReplaceChar(ReplaceChar(name, '\r', ""), '\n', " ")
  }

  predicate HasBreak(name: string) { '\r' in name || '\n' in name }

  function Cleaned(n: Node): Node
  {
    if HasBreak(n.name) then n.Renamed(Sanitize(n.name)) else n
  }

  predicate MatchesAny(res: seq<string -> bool>, s: string) { exists i :: 0 <= i < |res| && res[i](s) }

  predicate ProtocolAllowed(o: Options, n: Node)
  {
    var raw := ToLower(TrimSpace(n.typ));
    o.canonical(raw) !in o.excluded && raw !in o.excluded
  }

  predicate RemarkAllowed(o: Options, n: Node)
  {
    !MatchesAny(o.excludeRemarks, n.name) && (o.includeRemarks == [] || MatchesAny(o.includeRemarks, n.name))
  }

  predicate CipherAllowed(o: Options, n: Node)
  {
    o.filterDeprecated && n.typ == "ss" && "cipher" in n.clash && n.clash["cipher"].Str? && n.clash["cipher"].s != ""
    ==> ToLower(n.clash["cipher"].s) in o.supportedCiphers
  }

  /** Every connection field: the whole bag but the name, as its YAML rendering shows it. */
  function Signature(n: Node): Fields { PlainFields(n.clash - {"name"}) }

  // ---------- the pipeline on values ----------

  function Items(vs: seq<Node>): seq<Item>
  {
    seq(|vs|, i requires 0 <= i < |vs| => Item(i, vs[i]))
  }

  function Keep(items: seq<Item>, p: Node -> bool): seq<Item>
  {
    if items == [] then [] else
    var n := |items| - 1;
    Keep(items[..n], p) + (if p(items[n].node) then [items[n]] else [])
  }

  function Drops(items: seq<Item>, p: Node -> bool): nat
  {
    if items == [] then 0 else
    var n := |items| - 1;
    Drops(items[..n], p) + (if p(items[n].node) then 0 else 1)
  }

  function Signatures(items: seq<Item>): set<Fields> { set it | it in items :: Signature(it.node) }

  function FirstOfEach(items: seq<Item>): seq<Item>
  {
    if items == [] then [] else
    var n := |items| - 1;
    FirstOfEach(items[..n]) + (if Signature(items[n].node) in Signatures(items[..n]) then [] else [items[n]])
  }

  function Repeats(items: seq<Item>): nat
  {
    if items == [] then 0 else
    var n := |items| - 1;
    Repeats(items[..n]) + (if Signature(items[n].node) in Signatures(items[..n]) then 1 else 0)
  }

  predicate Passes(o: Options, n: Node) { ProtocolAllowed(o, n) && RemarkAllowed(o, n) && CipherAllowed(o, n) }

  function AfterProtocols(vs: seq<Node>, o: Options): seq<Item> { Keep(Items(vs), n => ProtocolAllowed(o, n)) }

  function AfterRemarks(vs: seq<Node>, o: Options): seq<Item> { Keep(AfterProtocols(vs, o), n => RemarkAllowed(o, n)) }

  function AfterCiphers(vs: seq<Node>, o: Options): seq<Item> { Keep(AfterRemarks(vs, o), n => CipherAllowed(o, n)) }

  /** The survivors, in input order. vs are the non-nil inputs with clean names. */
  function Survivors(vs: seq<Node>, o: Options): seq<Item>
  {
    if o.dedup then FirstOfEach(AfterCiphers(vs, o)) else AfterCiphers(vs, o)
  }

  function Tally(vs: seq<Node>, o: Options): Counts
  {
    Counts(|Survivors(vs, o)|,
           Drops(Items(vs), n => ProtocolAllowed(o, n)),
           Drops(AfterProtocols(vs, o), n => RemarkAllowed(o, n)),
           Drops(AfterRemarks(vs, o), n => CipherAllowed(o, n)),
           if o.dedup then Repeats(AfterCiphers(vs, o)) else 0)
  }

  function Insert(x: Item, items: seq<Item>): seq<Item>
  {
    if items == [] || !Less(items[0].node.name, x.node.name) then [x] + items
    else [items[0]] + Insert(x, items[1..])
  }

  /** The stable sort by name. */
  function Sorted(items: seq<Item>): seq<Item>
  {
    if items == [] then [] else Insert(items[0], Sorted(items[1..]))
  }

  function Rewritten(name: string, renames: seq<string -> string>): string
    decreases |renames|
  {
    if renames == [] then name else Rewritten(renames[0](name), renames[1..])
  }

  function StampedName(o: Options, n: Node): string
  {
    var typed := if o.appendType && n.typ != "" then "[" + ToUpper(n.typ) + "] " + n.name else n.name;
    var bare := if o.removeEmoji.Some? then o.removeEmoji.value(typed) else typed;
    var renamed := Rewritten(bare, o.renames);
    if o.addEmoji.Some? then o.addEmoji.value(renamed) else renamed
  }

  predicate Renames(o: Options, n: Node)
  {
    (o.appendType && n.typ != "") || o.removeEmoji.Some? || o.renames != [] || o.addEmoji.Some?
  }

  /** The options stamped onto a node: its new name, and the three flags. */
  function Stamped(o: Options, n: Node): Node
  {
    var named := if Renames(o, n) then n.Renamed(StampedName(o, n)) else n;
    var c1 := if o.udp then named.clash["udp" := Bool(true)] else named.clash;
    var c2 := if o.tfo then c1["tfo" := Bool(true)] else c1;
    var c3 := if o.skipCertVerify then c2["skip-cert-verify" := Bool(true)] else c2;
    named.(clash := c3)
  }

  function Finished(o: Options, items: seq<Item>): (r: seq<Item>)
    ensures |r| == |items|
  {
    seq(|items|, i requires 0 <= i < |items| => Item(items[i].ix, Cleaned(Stamped(o, items[i].node))))
  }

  function ItemNames(items: seq<Item>): (r: seq<string>)
    ensures |r| == |items|
  {
    seq(|items|, i requires 0 <= i < |items| => items[i].node.name)
  }

  function Uniquified(items: seq<Item>): (r: seq<Item>)
    ensures |r| == |items|
  {
    var names := Unique(ItemNames(items));
    seq(|items|, i requires 0 <= i < |items| => Item(items[i].ix, Named(items[i].node, names[i])))
  }

  /** What prepareNodes returns for non-nil inputs vs with clean names. */
  function Prepared(vs: seq<Node>, o: Options): seq<Item>
  {
    Uniquified(Finished(o, Arranged(vs, o)))
  }

  function Arranged(vs: seq<Node>, o: Options): seq<Item>
  {
    if o.sort then Sorted(Survivors(vs, o)) else Survivors(vs, o)
  }

  // ---------- what the pipeline promises ----------

  lemma {:induction false} KeepCounts(items: seq<Item>, p: Node -> bool)
    ensures |Keep(items, p)| + Drops(items, p) == |items|
  {
    if items != [] { KeepCounts(items[..|items| - 1], p); }
  }

  lemma {:induction false} FirstOfEachCounts(items: seq<Item>)
    ensures |FirstOfEach(items)| + Repeats(items) == |items|
  {
    if items != [] { FirstOfEachCounts(items[..|items| - 1]); }
  }

  /** Every non-nil input is accounted for. */
  lemma NothingIsLost(vs: seq<Node>, o: Options)
    ensures var t := Tally(vs, o);
            |vs| == t.nodeCount + t.excludedProtocols + t.remarkFiltered + t.deprecatedDropped + t.duplicates
    ensures |Prepared(vs, o)| == Tally(vs, o).nodeCount
  {
    KeepCounts(Items(vs), n => ProtocolAllowed(o, n));
    KeepCounts(AfterProtocols(vs, o), n => RemarkAllowed(o, n));
    KeepCounts(AfterRemarks(vs, o), n => CipherAllowed(o, n));
    FirstOfEachCounts(AfterCiphers(vs, o));
    SortedSize(Survivors(vs, o));
  }

  lemma {:induction false} SortedSize(items: seq<Item>)
    ensures |Sorted(items)| == |items| && multiset(Sorted(items)) == multiset(items)
    decreases |items|
  {
    if items != [] {
      SortedSize(items[1..]);
      InsertSize(items[0], Sorted(items[1..]));
      assert items == [items[0]] + items[1..];
    }
  }

  lemma {:induction false} InsertSize(x: Item, items: seq<Item>)
    ensures |Insert(x, items)| == |items| + 1 && multiset(Insert(x, items)) == multiset(items) + multiset{x}
    decreases |items|
  {
    if items == [] || !Less(items[0].node.name, x.node.name) {
    } else {
      InsertSize(x, items[1..]);
      assert items == [items[0]] + items[1..];
    }
  }

  /** Items in input order, each showing the input it came from. */
  ghost predicate Subsequence(items: seq<Item>, vs: seq<Node>)
  {
    && (forall i :: 0 <= i < |items| ==> items[i].ix < |vs| && items[i].node == vs[items[i].ix])
    && forall i, j :: 0 <= i < j < |items| ==> items[i].ix < items[j].ix
  }

  lemma {:induction false} KeepMembers(items: seq<Item>, p: Node -> bool)
    ensures forall it :: it in Keep(items, p) <==> it in items && p(it.node)
  {
    if items != [] {
      var n := |items| - 1;
      KeepMembers(items[..n], p);
      assert items == items[..n] + [items[n]];
    }
  }

  /** xs is below y: it can be followed by y in a subsequence. */
  lemma SubsequenceSnoc(xs: seq<Item>, y: Item, items: seq<Item>, n: nat, vs: seq<Node>)
    requires Subsequence(items, vs) && n < |items| && y == items[n]
    requires Subsequence(xs, vs) && forall it :: it in xs ==> it in items[..n]
    ensures Subsequence(xs + [y], vs)
  {
    forall i | 0 <= i < |xs|
      ensures xs[i].ix < y.ix
    {
      assert xs[i] in items[..n];
      var k :| 0 <= k < n && items[k] == xs[i];
    }
  }

  lemma {:induction false} KeepIsSubsequence(items: seq<Item>, p: Node -> bool, vs: seq<Node>)
    requires Subsequence(items, vs)
    ensures Subsequence(Keep(items, p), vs)
  {
    if items != [] {
      var n := |items| - 1;
      KeepIsSubsequence(items[..n], p, vs);
      KeepMembers(items[..n], p);
      if p(items[n].node) { SubsequenceSnoc(Keep(items[..n], p), items[n], items, n, vs); }
    }
  }

  lemma {:induction false} FirstOfEachMembers(items: seq<Item>, vs: seq<Node>)
    requires Subsequence(items, vs)
    ensures forall it :: it in FirstOfEach(items) <==>
              it in items && forall e :: e in items && e.ix < it.ix ==> Signature(e.node) != Signature(it.node)
  {
    if items != [] {
      var n := |items| - 1;
      FirstOfEachMembers(items[..n], vs);
      LastIsLatest(items, vs);
      hide FirstOfEach, Subsequence, Signature;
      assert FirstOfEach(items) == FirstOfEach(items[..n])
          + (if Signature(items[n].node) in Signatures(items[..n]) then [] else [items[n]]) by {
        FirstOfEachUnfold(items);
      }
    }
  }

  lemma FirstOfEachUnfold(items: seq<Item>)
    requires items != []
    ensures var n := |items| - 1;
            FirstOfEach(items) == FirstOfEach(items[..n])
                + (if Signature(items[n].node) in Signatures(items[..n]) then [] else [items[n]])
  {
  }

  lemma LastIsLatest(items: seq<Item>, vs: seq<Node>)
    requires items != [] && Subsequence(items, vs)
    ensures var n := |items| - 1;
            (forall e :: e in items <==> e in items[..n] || e == items[n])
                && (forall e :: e in items[..n] ==> e.ix < items[n].ix)
  {
    var n := |items| - 1;
    assert items == items[..n] + [items[n]];
  }

  lemma {:induction false} FirstOfEachIsSubsequence(items: seq<Item>, vs: seq<Node>)
    requires Subsequence(items, vs)
    ensures Subsequence(FirstOfEach(items), vs)
  {
    if items != [] {
      var n := |items| - 1;
      FirstOfEachIsSubsequence(items[..n], vs);
      FirstOfEachMembers(items[..n], vs);
      if Signature(items[n].node) !in Signatures(items[..n]) {
        SubsequenceSnoc(FirstOfEach(items[..n]), items[n], items, n, vs);
      }
    }
  }

  lemma WhoPasses(vs: seq<Node>, o: Options)
    ensures Subsequence(AfterCiphers(vs, o), vs)
    ensures forall i :: 0 <= i < |vs| ==> (Item(i, vs[i]) in AfterCiphers(vs, o) <==> Passes(o, vs[i]))
  {
    var items := Items(vs);
    KeepIsSubsequence(items, n => ProtocolAllowed(o, n), vs);
    KeepIsSubsequence(AfterProtocols(vs, o), n => RemarkAllowed(o, n), vs);
    KeepIsSubsequence(AfterRemarks(vs, o), n => CipherAllowed(o, n), vs);
    hide AfterCiphers, Passes, Subsequence;
    forall i | 0 <= i < |vs|
      ensures Item(i, vs[i]) in AfterCiphers(vs, o) <==> Passes(o, vs[i])
    {
      PassesIff(vs, o, Item(i, vs[i]));
      assert items[i] == Item(i, vs[i]);
    }
  }

  lemma PassesIff(vs: seq<Node>, o: Options, it: Item)
    ensures it in AfterCiphers(vs, o) <==> it in Items(vs) && Passes(o, it.node)
  {
    KeepMembers(Items(vs), n => ProtocolAllowed(o, n));
    KeepMembers(AfterProtocols(vs, o), n => RemarkAllowed(o, n));
    KeepMembers(AfterRemarks(vs, o), n => CipherAllowed(o, n));
    hide Keep, ProtocolAllowed, RemarkAllowed, CipherAllowed;
  }

  /**
    Exactly who survives: the survivors are the inputs, in order, that pass the three filters and,
    when duplicates are dropped, follow no passing input with the same connection fields.
   */
  lemma WhoSurvives(vs: seq<Node>, o: Options)
    ensures Subsequence(Survivors(vs, o), vs)
    ensures forall i :: 0 <= i < |vs| ==>
              (Item(i, vs[i]) in Survivors(vs, o) <==>
               Passes(o, vs[i]) &&
               (o.dedup ==> forall j :: 0 <= j < i && Passes(o, vs[j]) ==> Signature(vs[j]) != Signature(vs[i])))
  {
    WhoPasses(vs, o);
    if o.dedup {
      var passing := AfterCiphers(vs, o);
      FirstOfEachIsSubsequence(passing, vs);
      FirstOfEachMembers(passing, vs);
      hide FirstOfEach, AfterCiphers, Passes, Signature;
      forall i | 0 <= i < |vs|
        ensures (forall e :: e in passing && e.ix < i ==> Signature(e.node) != Signature(vs[i]))
           <==> (forall j :: 0 <= j < i && Passes(o, vs[j]) ==> Signature(vs[j]) != Signature(vs[i]))
      {
        EarlierPassing(passing, vs, o, i);
      }
      hide Subsequence;
    }
  }

  lemma EarlierPassing(passing: seq<Item>, vs: seq<Node>, o: Options, i: nat)
    requires i < |vs| && Subsequence(passing, vs)
    requires forall j :: 0 <= j < |vs| ==> (Item(j, vs[j]) in passing <==> Passes(o, vs[j]))
    ensures (forall e :: e in passing && e.ix < i ==> Signature(e.node) != Signature(vs[i]))
       <==> (forall j :: 0 <= j < i && Passes(o, vs[j]) ==> Signature(vs[j]) != Signature(vs[i]))
  {
    hide Passes, Signature;
    forall j | 0 <= j < i && Passes(o, vs[j])
      ensures Item(j, vs[j]) in passing && Item(j, vs[j]).ix < i
    {
    }
    forall e | e in passing
      ensures e.ix < |vs| && e == Item(e.ix, vs[e.ix])
    {
    }
  }

  /** A passing input that was dropped as a duplicate follows a kept one with the same connection fields. */
  lemma {:induction false} DuplicateHasKeptTwin(vs: seq<Node>, o: Options, i: nat) returns (k: nat)
    requires i < |vs| && Passes(o, vs[i]) && Item(i, vs[i]) !in Survivors(vs, o)
    ensures k < i && Item(k, vs[k]) in Survivors(vs, o) && Signature(vs[k]) == Signature(vs[i])
    decreases i
  {
    WhoSurvives(vs, o);
    var j :| 0 <= j < i && Passes(o, vs[j]) && Signature(vs[j]) == Signature(vs[i]);
    if Item(j, vs[j]) in Survivors(vs, o) {
      k := j;
    } else {
      k := DuplicateHasKeptTwin(vs, o, j);
    }
  }

  // ---------- the order ----------

  lemma {:induction false} LessIsStrict(a: string, b: string)
    ensures !(Less(a, b) && Less(b, a))
    ensures !Less(a, b) && !Less(b, a) ==> a == b
    decreases |a|
  {
    if a != "" && b != "" && a[0] == b[0] {
      LessIsStrict(a[1..], b[1..]);
      assert a == [a[0]] + a[1..] && b == [b[0]] + b[1..];
    }
  }

  lemma {:induction false} NotLessTransitive(a: string, b: string, c: string)
    requires !Less(b, a) && !Less(c, b)
    ensures !Less(c, a)
    decreases |a|
  {
    if Less(c, a) && b != "" && c != "" && a[0] == b[0] && b[0] == c[0] {
      NotLessTransitive(a[1..], b[1..], c[1..]);
    }
  }

  /** x may stand before y: a smaller name, or the same name and an earlier place. */
  predicate Before(x: Item, y: Item)
  {
    Less(x.node.name, y.node.name) || (x.node.name == y.node.name && x.ix < y.ix)
  }

  ghost predicate InOrder(items: seq<Item>) { forall i, j :: 0 <= i < j < |items| ==> Before(items[i], items[j]) }

  lemma BeforeTransitive(x: Item, y: Item, z: Item)
    requires Before(x, y) && Before(y, z)
    ensures Before(x, z)
  {
    var a, b, c := x.node.name, y.node.name, z.node.name;
    LessIsStrict(a, b);
    LessIsStrict(b, c);
    LessIsStrict(a, c);
    NotLessTransitive(a, b, c);
    if c == a { LessIsStrict(b, c); }
  }

  lemma {:induction false} InsertInOrder(x: Item, items: seq<Item>)
    requires InOrder(items) && forall i :: 0 <= i < |items| ==> x.ix < items[i].ix
    ensures InOrder(Insert(x, items))
    decreases |items|
  {
    if items == [] {
    } else if !Less(items[0].node.name, x.node.name) {
      LessIsStrict(items[0].node.name, x.node.name);
      forall i | 0 <= i < |items|
        ensures Before(x, items[i])
      {
        if i > 0 { BeforeTransitive(x, items[0], items[i]); }
      }
    } else {
      InsertInOrder(x, items[1..]);
      var rest := Insert(x, items[1..]);
      InsertSize(x, items[1..]);
      forall i | 0 <= i < |rest|
        ensures Before(items[0], rest[i])
      {
        assert rest[i] in multiset(rest);
        if rest[i] != x {
          assert rest[i] in multiset(items[1..]);
          var k :| 0 <= k < |items[1..]| && items[1..][k] == rest[i];
          assert items[k + 1] == rest[i];
        }
      }
    }
  }

  /** Sorting orders by name, and by input order among equal names; it only permutes (SortedSize). */
  lemma {:induction false} SortIsStable(items: seq<Item>)
    requires forall i, j :: 0 <= i < j < |items| ==> items[i].ix < items[j].ix
    ensures InOrder(Sorted(items))
    decreases |items|
  {
    if items != [] {
      var rest := Sorted(items[1..]);
      SortIsStable(items[1..]);
      SortedSize(items[1..]);
      forall i | 0 <= i < |rest|
        ensures items[0].ix < rest[i].ix
      {
        assert rest[i] in multiset(rest);
        assert rest[i] in multiset(items[1..]);
        var k :| 0 <= k < |items[1..]| && items[1..][k] == rest[i];
        assert items[k + 1] == rest[i];
      }
      InsertInOrder(items[0], rest);
    }
  }

  // ---------- the names that come out ----------

  lemma {:induction false} ReplaceRemoves(s: string, c: char, sub: string, d: char)
    requires d !in sub && (d == c || d !in s)
    ensures d !in ReplaceChar(s, c, sub)
    decreases |s|
  {
    if s != "" {
      assert s[0] in s;
      if d != c {
        forall e | e in s[1..] ensures e in s {}
      }
      ReplaceRemoves(s[1..], c, sub, d);
    }
  }

  lemma CleanedHasNoBreak(n: Node)
    ensures !HasBreak(Cleaned(n).name)
  {
    ReplaceRemoves(n.name, '\r', "", '\r');
    ReplaceRemoves(ReplaceChar(n.name, '\r', ""), '\n', " ", '\r');
    ReplaceRemoves(ReplaceChar(n.name, '\r', ""), '\n', " ", '\n');
  }

  lemma SuffixHasNoBreak(name: string, k: nat)
    requires !HasBreak(name)
    ensures !HasBreak(Suffixed(name, k))
  {
    var d := Decimal.Digits(k);
    assert forall i :: 0 <= i < |d| ==> Decimal.IsDigit(d[i]);
  }

  /** The display names are pairwise distinct and hold no line break, whatever the options do to them. */
  lemma NamesAreFit(vs: seq<Node>, o: Options)
    ensures Distinct(ItemNames(Prepared(vs, o)))
    ensures forall i :: 0 <= i < |Prepared(vs, o)| ==> !HasBreak(Prepared(vs, o)[i].node.name)
  {
    var items := Finished(o, Arranged(vs, o));
    var names := ItemNames(items);
    UniqueIsDistinct(names);
    assert ItemNames(Prepared(vs, o)) == Unique(names);
    forall i | 0 <= i < |items|
      ensures !HasBreak(Unique(names)[i])
    {
      UniqueAt(names, i);
      CleanedHasNoBreak(Stamped(o, Arranged(vs, o)[i].node));
      var taken := Taken(Unique(names)[..i]);
      if names[i] in taken { SuffixHasNoBreak(names[i], LeastFree(names[i], taken, 2)); }
    }
  }

  lemma ArrangedAreSurvivors(vs: seq<Node>, o: Options)
    ensures forall k :: 0 <= k < |Arranged(vs, o)| ==>
              var it := Arranged(vs, o)[k];
              it.ix < |vs| && it == Item(it.ix, vs[it.ix]) && it in Survivors(vs, o)
    ensures forall j, k :: 0 <= j < k < |Arranged(vs, o)| ==>
              var x, y := Arranged(vs, o)[j], Arranged(vs, o)[k];
              if o.sort then Before(x, y) else x.ix < y.ix
  {
    var kept := Survivors(vs, o);
    WhoSurvives(vs, o);
    SortedSize(kept);
    SortIsStable(kept);
    hide Survivors, Sorted;
    var order := Arranged(vs, o);
    forall k | 0 <= k < |order|
      ensures order[k] in kept
    {
      assert order[k] in multiset(order);
      assert order[k] in multiset(kept);
    }
  }

  /**
    Every node that comes out is one of the inputs with the options stamped on and only its name changed
    otherwise; without sorting they come in input order, with it in order of the names they had.
   */
  lemma OutputsAreStampedInputs(vs: seq<Node>, o: Options)
    ensures |Prepared(vs, o)| == |Arranged(vs, o)|
    ensures forall k :: 0 <= k < |Prepared(vs, o)| ==>
              var it := Prepared(vs, o)[k];
              && it.ix < |vs| && Item(it.ix, vs[it.ix]) in Survivors(vs, o)
              && Signature(it.node) == Signature(Stamped(o, vs[it.ix]))
              && (vs[it.ix].InStep() ==> it.node.InStep())
    ensures forall j, k :: 0 <= j < k < |Prepared(vs, o)| ==>
              var x, y := Prepared(vs, o)[j].ix, Prepared(vs, o)[k].ix;
              if o.sort then Before(Item(x, vs[x]), Item(y, vs[y])) else x < y
  {
    ArrangedAreSurvivors(vs, o);
    var order := Arranged(vs, o);
    var out := Prepared(vs, o);
    hide Arranged, Survivors, Unique;
    forall k | 0 <= k < |order|
      ensures out[k].ix == order[k].ix && Signature(out[k].node) == Signature(Stamped(o, order[k].node))
      ensures order[k].node.InStep() ==> out[k].node.InStep()
    {
      StampKeeps(o, order[k].node, Unique(ItemNames(Finished(o, order)))[k]);
    }
    hide Prepared, Signature, Stamped, Before;
  }

  lemma StampKeeps(o: Options, n: Node, name: string)
    ensures var out := Named(Cleaned(Stamped(o, n)), name);
            Signature(out) == Signature(Stamped(o, n)) && (n.InStep() ==> out.InStep())
  {
    hide PlainFields, Plain;
    var st := Stamped(o, n);
    assert st.Renamed(Sanitize(st.name)).clash - {"name"} == st.clash - {"name"};
    assert Cleaned(st).Renamed(name).clash - {"name"} == Cleaned(st).clash - {"name"};
  }

  // ---------- the loops over node objects ----------

  /** objs are base's objects at the items' places, each in the state the item shows. */
  ghost predicate Shows(objs: seq<Proxy>, items: seq<Item>, base: seq<Proxy>)
    reads objs
  {
    && |objs| == |items|
    && forall k :: 0 <= k < |objs| ==>
         items[k].ix < |base| && objs[k] == base[items[k].ix] && objs[k].View() == items[k].node
  }

  lemma {:induction false} KeepAll(items: seq<Item>, p: Node -> bool)
    requires forall i :: 0 <= i < |items| ==> p(items[i].node)
    ensures Keep(items, p) == items && Drops(items, p) == 0
  {
    if items != [] {
      KeepAll(items[..|items| - 1], p);
      assert items == items[..|items| - 1] + [items[|items| - 1]];
    }
  }

  lemma ShowsSnoc(objs: seq<Proxy>, n: Proxy, items: seq<Item>, it: Item, base: seq<Proxy>)
    requires Shows(objs, items, base) && it.ix < |base| && n == base[it.ix] && n.View() == it.node
    ensures Shows(objs + [n], items + [it], base)
  {
  }

  method FilterProtocols(nodes: seq<Proxy>, o: Options, ghost items: seq<Item>, ghost base: seq<Proxy>)
    returns (out: seq<Proxy>, dropped: nat)
    requires Shows(nodes, items, base)
    ensures Shows(out, Keep(items, n => ProtocolAllowed(o, n)), base)
    ensures dropped == Drops(items, n => ProtocolAllowed(o, n))
  {
    ghost var p := n => ProtocolAllowed(o, n);
    if |o.excluded| == 0 {
      KeepAll(items, p);
      return nodes, 0;
    }
    out, dropped := [], 0;
    for i := 0 to |nodes|
      invariant Shows(out, Keep(items[..i], p), base) && dropped == Drops(items[..i], p)
    {
      assert items[..i + 1][..i] == items[..i];
      var rawType := ToLower(TrimSpace(nodes[i].Type));
      var canon := o.canonical(rawType);
      if canon in o.excluded || rawType in o.excluded {
        dropped := dropped + 1;
      } else {
        out := out + [nodes[i]];
      }
    }
    assert items[..|nodes|] == items;
  }

  method FilterNodes(nodes: seq<Proxy>, o: Options, ghost items: seq<Item>, ghost base: seq<Proxy>)
    returns (out: seq<Proxy>, ghost dropped: nat)
    requires Shows(nodes, items, base)
    ensures Shows(out, Keep(items, n => RemarkAllowed(o, n)), base)
    ensures dropped == Drops(items, n => RemarkAllowed(o, n))
  {
    ghost var p := n => RemarkAllowed(o, n);
    out, dropped := [], 0;
    for i := 0 to |nodes|
      invariant Shows(out, Keep(items[..i], p), base) && dropped == Drops(items[..i], p)
    {
      assert items[..i + 1][..i] == items[..i];
      if MatchesAny(o.excludeRemarks, nodes[i].Name) {
        dropped := dropped + 1;
        continue;
      }
      if |o.includeRemarks| > 0 && !MatchesAny(o.includeRemarks, nodes[i].Name) {
        dropped := dropped + 1;
        continue;
      }
      out := out + [nodes[i]];
    }
    assert items[..|nodes|] == items;
  }

  method FilterDeprecated(nodes: seq<Proxy>, o: Options, ghost items: seq<Item>, ghost base: seq<Proxy>)
    returns (out: seq<Proxy>, dropped: nat)
    requires Shows(nodes, items, base) && o.filterDeprecated
    ensures Shows(out, Keep(items, n => CipherAllowed(o, n)), base)
    ensures dropped == Drops(items, n => CipherAllowed(o, n))
  {
    ghost var p := n => CipherAllowed(o, n);
    out, dropped := [], 0;
    for i := 0 to |nodes|
      invariant Shows(out, Keep(items[..i], p), base) && dropped == Drops(items[..i], p)
    {
      assert items[..i + 1][..i] == items[..i];
      var n := nodes[i];
      if n.Type == "ss" {
        var cipher := if "cipher" in n.Clash && n.Clash["cipher"].Str? then n.Clash["cipher"].s else "";
        if cipher != "" && ToLower(cipher) !in o.supportedCiphers {
          dropped := dropped + 1;
          continue;
        }
      }
      out := out + [n];
    }
    assert items[..|nodes|] == items;
  }

  method Dedup(nodes: seq<Proxy>, ghost items: seq<Item>, ghost base: seq<Proxy>)
    returns (out: seq<Proxy>, removed: nat)
    requires Shows(nodes, items, base)
    ensures Shows(out, FirstOfEach(items), base)
    ensures removed == Repeats(items)
  {
    hide *;
    var seen: set<Fields> := {};
    out, removed := [], 0;
    DedupStart(nodes, items, base);
    for i := 0 to |nodes|
      invariant Shows(out, FirstOfEach(items[..i]), base) && removed == Repeats(items[..i])
      invariant seen == Signatures(items[..i])
    {
      DedupSnoc(items, i);
      SignatureShown(nodes, items, base, i);
      ShowsSnoc(out, nodes[i], FirstOfEach(items[..i]), items[i], base);
      var sig := PlainFields(nodes[i].Clash - {"name"});
      if sig in seen {
        removed := removed + 1;
      } else {
        seen := seen + {sig};
        out := out + [nodes[i]];
      }
    }
  }

  lemma DedupStart(nodes: seq<Proxy>, items: seq<Item>, base: seq<Proxy>)
    requires Shows(nodes, items, base)
    ensures |nodes| == |items| && items[..0] == [] && items[..|nodes|] == items
    ensures Shows([], FirstOfEach([]), base) && Signatures([]) == {} && Repeats([]) == 0
  {
  }

  lemma SignatureShown(nodes: seq<Proxy>, items: seq<Item>, base: seq<Proxy>, i: nat)
    requires Shows(nodes, items, base) && i < |nodes|
    ensures PlainFields(nodes[i].Clash - {"name"}) == Signature(items[i].node)
    ensures items[i].ix < |base| && nodes[i] == base[items[i].ix] && nodes[i].View() == items[i].node
  {
  }

  lemma DedupSnoc(items: seq<Item>, i: nat)
    requires i < |items|
    ensures var sig, before := Signature(items[i].node), items[..i];
            && Signatures(items[..i + 1]) == Signatures(before) + {sig}
            && FirstOfEach(items[..i + 1]) == (if sig in Signatures(before) then FirstOfEach(before)
                else FirstOfEach(before) + [items[i]])
            && Repeats(items[..i + 1]) == Repeats(before) + if sig in Signatures(before) then 1 else 0
  {
    assert items[..i + 1] == items[..i] + [items[i]];
    assert items[..i + 1][..i] == items[..i];
  }

  type Keyed = (string, Proxy)

  function InsertKeyed(x: Keyed, xs: seq<Keyed>): seq<Keyed>
  {
    if xs == [] || !Less(xs[0].0, x.0) then [x] + xs else [xs[0]] + InsertKeyed(x, xs[1..])
  }

  /** sort.SliceStable by the name in front. */
  function SortKeyed(xs: seq<Keyed>): seq<Keyed>
  {
    if xs == [] then [] else InsertKeyed(xs[0], SortKeyed(xs[1..]))
  }

  ghost predicate KeyedAs(xs: seq<Keyed>, items: seq<Item>, base: seq<Proxy>)
  {
    && |xs| == |items|
    && forall k :: 0 <= k < |xs| ==> items[k].ix < |base| && xs[k] == (items[k].node.name, base[items[k].ix])
  }

  lemma {:induction false} InsertKeyedAs(x: Keyed, xs: seq<Keyed>, it: Item, items: seq<Item>, base: seq<Proxy>)
    requires it.ix < |base| && x == (it.node.name, base[it.ix]) && KeyedAs(xs, items, base)
    ensures KeyedAs(InsertKeyed(x, xs), Insert(it, items), base)
    decreases |xs|
  {
    if xs != [] && Less(xs[0].0, x.0) {
      InsertKeyedAs(x, xs[1..], it, items[1..], base);
      var a, b := InsertKeyed(x, xs[1..]), Insert(it, items[1..]);
      assert InsertKeyed(x, xs) == [xs[0]] + a && Insert(it, items) == [items[0]] + b;
      hide InsertKeyed, Insert;
    }
    hide Less;
  }

  lemma {:induction false} SortKeyedAs(xs: seq<Keyed>, items: seq<Item>, base: seq<Proxy>)
    requires KeyedAs(xs, items, base)
    ensures KeyedAs(SortKeyed(xs), Sorted(items), base)
    decreases |xs|
  {
    if xs != [] {
      SortKeyedAs(xs[1..], items[1..], base);
      InsertKeyedAs(xs[0], SortKeyed(xs[1..]), items[0], Sorted(items[1..]), base);
    }
  }

  method SortNodes(nodes: seq<Proxy>, ghost items: seq<Item>, ghost base: seq<Proxy>) returns (out: seq<Proxy>)
    requires Shows(nodes, items, base)
    ensures Shows(out, Sorted(items), base)
  {
    hide Sorted, SortKeyed;
    var keyed := [];
    for i := 0 to |nodes|
      invariant KeyedAs(keyed, items[..i], base)
    {
      keyed := keyed + [(nodes[i].Name, nodes[i])];
    }
    assert items[..|nodes|] == items;
    SortKeyedAs(keyed, items, base);
    var sorted := SortKeyed(keyed);
    out := seq(|sorted|, i requires 0 <= i < |sorted| => sorted[i].1);
    SortedSize(items);
    forall k | 0 <= k < |out|
      ensures out[k].View() == Sorted(items)[k].node
    {
      assert Sorted(items)[k] in multiset(Sorted(items));
      assert Sorted(items)[k] in multiset(items);
      var m :| 0 <= m < |items| && items[m] == Sorted(items)[k];
    }
  }

  method ApplyNodeOptions(n: Proxy, o: Options)
    modifies n
    ensures n.View() == Stamped(o, old(n.View()))
  {
    ghost var was := n.View();
    StampName(n, o);
    hide StampedName;
    if o.udp { n.Clash := n.Clash["udp" := Bool(true)]; }
    if o.tfo { n.Clash := n.Clash["tfo" := Bool(true)]; }
    if o.skipCertVerify { n.Clash := n.Clash["skip-cert-verify" := Bool(true)]; }
  }

  method StampName(n: Proxy, o: Options)
    modifies n`Name, n`Clash
    ensures n.Name == StampedName(o, old(n.View())) || !Renames(o, old(n.View()))
    ensures !Renames(o, old(n.View())) ==> n.View() == old(n.View())
    ensures Renames(o, old(n.View())) ==> n.Clash == old(n.Clash)["name" := Str(n.Name)]
  {
    hide Rewritten, ToUpper;
    if o.appendType && n.Type != "" {
      n.Rename("[" + ToUpper(n.Type) + "] " + n.Name);
    }
    label Typed:
    if o.removeEmoji.Some? {
      n.Rename(o.removeEmoji.value(n.Name));
    }
    ApplyRenames(n, o.renames);
    if o.addEmoji.Some? {
      n.Rename(o.addEmoji.value(n.Name));
    }
  }

  method ApplyRenames(n: Proxy, renames: seq<string -> string>)
    modifies n`Name, n`Clash
    ensures n.View() == if renames == [] then old(n.View()) else old(n.View()).Renamed(Rewritten(old(n.Name), renames))
    ensures n.Name == Rewritten(old(n.Name), renames)
  {
    ghost var was := n.View();
    for i := 0 to |renames|
      invariant Rewritten(n.Name, renames[i..]) == Rewritten(was.name, renames)
      invariant n.View() == if i == 0 then was else was.Renamed(n.Name)
    {
      n.Rename(renames[i](n.Name));
      assert renames[i..][1..] == renames[i + 1..];
    }
  }

  function NonNil(nodes: seq<Proxy?>): (r: seq<Proxy>)
    ensures |r| <= |nodes| && forall i :: 0 <= i < |r| ==> r[i] in nodes
  {
    if nodes == [] then [] else
    var n := |nodes| - 1;
    assert nodes == nodes[..n] + [nodes[n]];
    NonNil(nodes[..n]) + (if nodes[n] == null then [] else [nodes[n]])
  }

  function AllCleaned(vs: seq<Node>): (r: seq<Node>)
    ensures |r| == |vs|
  {
    seq(|vs|, i requires 0 <= i < |vs| => Cleaned(vs[i]))
  }

  lemma {:induction false} NonNilPrefix(nodes: seq<Proxy?>, i: nat)
    requires i <= |nodes|
    ensures NonNil(nodes[..i]) <= NonNil(nodes)
    decreases |nodes|
  {
    if i == |nodes| {
      assert nodes[..i] == nodes;
    } else {
      var n := |nodes| - 1;
      NonNilPrefix(nodes[..n], i);
      assert nodes[..n][..i] == nodes[..i];
    }
  }

  lemma NonNilNone(nodes: seq<Proxy?>)
    ensures NonNil(nodes[..0]) == []
  {
  }

  lemma NonNilSnoc(nodes: seq<Proxy?>, i: nat)
    requires i < |nodes|
    ensures NonNil(nodes[..i + 1]) == NonNil(nodes[..i]) + if nodes[i] == null then [] else [nodes[i]]
  {
    assert nodes[..i + 1][..i] == nodes[..i];
  }

  method CleanNodes(nodes: seq<Proxy?>) returns (clean: seq<Proxy>)
    requires Distinct(NonNil(nodes))
    modifies NonNil(nodes)
    ensures clean == NonNil(nodes)
    ensures Views(clean) == AllCleaned(old(Views(NonNil(nodes))))
  {
    hide NonNil, Cleaned;
    clean := [];
    ghost var all, was := NonNil(nodes), Views(NonNil(nodes));
    NonNilNone(nodes);
    for i := 0 to |nodes|
      invariant clean == NonNil(nodes[..i]) && clean <= all
      invariant forall k :: 0 <= k < |all| ==> all[k].View() == if k < |clean| then Cleaned(was[k]) else was[k]
    {
      NonNilSnoc(nodes, i);
      NonNilPrefix(nodes, i + 1);
      var n := nodes[i];
      if n != null {
        assert n == all[|clean|];
        assert forall k :: 0 <= k < |all| && k != |clean| ==> all[k] != n;
        hide Distinct, Views, AllCleaned;
        CleanNode(n);
        clean := clean + [n];
      }
    }
    assert nodes[..|nodes|] == nodes;
  }

  method CleanNode(n: Proxy)
    modifies n
    ensures n.View() == Cleaned(old(n.View()))
  {
    if HasBreak(n.Name) {
      n.Rename(Sanitize(n.Name));
    }
  }

  method StampNodes(nodes: seq<Proxy>, o: Options, ghost items: seq<Item>, ghost base: seq<Proxy>)
    requires Distinct(nodes) && Shows(nodes, items, base)
    modifies nodes
    ensures Shows(nodes, Finished(o, items), base)
  {
    for i := 0 to |nodes|
      invariant forall k :: 0 <= k < |nodes| ==>
                  nodes[k].View() == if k < i then Stamped(o, items[k].node) else items[k].node
    {
      assert forall k :: 0 <= k < |nodes| && k != i ==> nodes[k] != nodes[i];
      hide Distinct, Stamped;
      ApplyNodeOptions(nodes[i], o);
    }
    for i := 0 to |nodes|
      invariant forall k :: 0 <= k < |nodes| ==>
                  nodes[k].View() == if k < i then Cleaned(Stamped(o, items[k].node)) else Stamped(o, items[k].node)
    {
      assert forall k :: 0 <= k < |nodes| && k != i ==> nodes[k] != nodes[i];
      hide Distinct, Stamped, Cleaned;
      CleanNode(nodes[i]);
    }
  }

  /**
    The whole pipeline. The objects that come out are the inputs' own, each in the state Prepared gives it;
    the counts are those of Tally, of which the source records all but the remark-filtered nodes.
   */
  method PrepareNodes(nodes: seq<Proxy?>, o: Options)
    returns (out: seq<Proxy>, nodeCount: nat, excluded: nat, deprecated: nat, duplicates: nat, ghost remarks: nat)
    requires Distinct(NonNil(nodes))
    modifies NonNil(nodes)
    ensures var vs := AllCleaned(old(Views(NonNil(nodes))));
            && Shows(out, Prepared(vs, o), NonNil(nodes))
            && Counts(nodeCount, excluded, remarks, deprecated, duplicates) == Tally(vs, o)
  {
    ghost var base := NonNil(nodes);
    var kept := CleanNodes(nodes);
    ghost var vs := Views(base);
    kept, excluded, deprecated, duplicates, remarks := SelectNodes(kept, o, vs);
    if o.sort {
      kept := SortNodes(kept, Survivors(vs, o), base);
    }
    ghost var items := Arranged(vs, o);
    ArrangedDistinct(kept, items, vs, o, base);
    hide Arranged, Distinct, Shows, Survivors, Tally;
    FinishNodes(kept, o, items, base);
    NothingIsLost(vs, o);
    ShownSize(kept, Prepared(vs, o), base);
    return kept, |kept|, excluded, deprecated, duplicates, remarks;
  }

  lemma ShownSize(objs: seq<Proxy>, items: seq<Item>, base: seq<Proxy>)
    requires Shows(objs, items, base)
    ensures |objs| == |items|
  {
  }

  method FinishNodes(nodes: seq<Proxy>, o: Options, ghost items: seq<Item>, ghost base: seq<Proxy>)
    requires Distinct(nodes) && Shows(nodes, items, base)
    modifies nodes
    ensures Shows(nodes, Uniquified(Finished(o, items)), base)
  {
    StampNodes(nodes, o, items, base);
    ghost var before := Finished(o, items);
    assert NamesOf(Views(nodes)) == ItemNames(before);
    hide Finished, Distinct, Views, NamesOf, ItemNames;
    UniquifyNames(nodes);
  }

  method SelectNodes(nodes: seq<Proxy>, o: Options, ghost vs: seq<Node>)
    returns (out: seq<Proxy>, excluded: nat, deprecated: nat, duplicates: nat, ghost remarks: nat)
    requires vs == Views(nodes)
    ensures Shows(out, Survivors(vs, o), nodes)
    ensures Counts(|out|, excluded, remarks, deprecated, duplicates) == Tally(vs, o)
  {
    out, excluded := FilterProtocols(nodes, o, Items(vs), nodes);
    out, remarks := FilterNodes(out, o, AfterProtocols(vs, o), nodes);
    deprecated, duplicates := 0, 0;
    if o.filterDeprecated {
      out, deprecated := FilterDeprecated(out, o, AfterRemarks(vs, o), nodes);
    } else {
      KeepAll(AfterRemarks(vs, o), n => CipherAllowed(o, n));
    }
    if o.dedup {
      out, duplicates := Dedup(out, AfterCiphers(vs, o), nodes);
    }
    hide Keep, Drops, FirstOfEach, Repeats;
  }

  lemma ArrangedDistinct(objs: seq<Proxy>, items: seq<Item>, vs: seq<Node>, o: Options, base: seq<Proxy>)
    requires items == Arranged(vs, o) && Shows(objs, items, base) && Distinct(base) && |base| == |vs|
    ensures Distinct(objs)
  {
    ArrangedAreSurvivors(vs, o);
    hide Arranged;
    forall i, j | 0 <= i < j < |objs|
      ensures objs[i] != objs[j]
    {
      LessIsStrict(items[i].node.name, items[i].node.name);
      assert items[i].ix != items[j].ix;
    }
  }
}
