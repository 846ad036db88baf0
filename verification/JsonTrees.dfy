/**
  JSON objects as trees, and field bags built key by key (encoding/json on the values the sing-box
  generator and parser exchange).
 */
module JsonTrees {
  import opened Wrappers
  import opened Text
  import opened Values
  import opened Accessors
  import opened LinkText

  /** What unmarshalling gives for a marshalled value: numbers are float64, every list is []any. */
  function Decoded(v: Value): Value
  {
    match v
    case Int(n) => Float(n as real)
    case Ints(ns) => List(seq(|ns|, i requires 0 <= i < |ns| => Float(ns[i] as real)))
    case Strs(ss) => List(seq(|ss|, i requires 0 <= i < |ss| => Str(ss[i])))
    case Map(m) => Map(map k | k in m :: Decoded(m[k]))
    case List(items) => List(seq(|items|, i requires 0 <= i < |items| => Decoded(items[i])))
    case _ => v
  }

  function DecodedFields(m: Fields): Fields { map k | k in m :: Decoded(m[k]) }

  lemma DecodedMap(m: Fields)
    ensures Decoded(Map(m)) == Map(DecodedFields(m))
  {
  }

  // ---------- bags built key by key ----------

  datatype Entry = Entry(key: string, value: Value)

  function When(b: bool, key: string, value: Value): seq<Entry> { if b then [Entry(key, value)] else [] }

  function Table(es: seq<Entry>): Fields
  {
    if es == [] then map[] else Table(es[..|es| - 1])[es[|es| - 1].key := es[|es| - 1].value]
  }

  function At(m: Fields, k: string): Option<Value> { if k in m then Some(m[k]) else None }

  lemma TableWhen(es: seq<Entry>, b: bool, k: string, v: Value)
    ensures Table(es + When(b, k, v)) == if b then Table(es)[k := v] else Table(es)
  {
    if b {
      assert (es + [Entry(k, v)])[..|es|] == es;
    } else {
      assert es + [] == es;
    }
  }

  lemma LookupWhen(es: seq<Entry>, b: bool, k: string, v: Value, j: string)
    ensures At(Table(es + When(b, k, v)), j) == if b && j == k then Some(v) else At(Table(es), j)
  {
    TableWhen(es, b, k, v);
    hide Table;
  }

  lemma LookupNone(j: string)
    ensures At(Table([]), j) == None
  {
  }

  lemma LookupDecoded(m: Fields, j: string)
    ensures At(DecodedFields(m), j) == if At(m, j).Some? then Some(Decoded(At(m, j).value)) else None
  {
    hide Decoded;
  }

  // ---------- the generator's accessors, by what is under a key ----------

  function TextOf(v: Option<Value>): string { if v.None? then "" else CS(map["" := v.value], "") }

  function FlagOf(v: Option<Value>): bool { v.Some? && CB(map["" := v.value], "") }

  function NumberOf(v: Option<Value>): int { if v.None? then 0 else CI(map["" := v.value], "") }

  function SubOf(v: Option<Value>): Fields { if v.Some? && v.value.Map? then v.value.m else map[] }

  lemma ReadsAt(c: Fields, k: string)
    ensures CS(c, k) == TextOf(At(c, k)) && CB(c, k) == FlagOf(At(c, k)) && CI(c, k) == NumberOf(At(c, k))
            && CMap(c, k) == SubOf(At(c, k))
  {
  }

  /** Reading strings, switches, numbers and maps that were put in as such. */
  lemma ReadsPlain(s: string, b: bool, n: int, m: Fields)
    ensures TextOf(Some(Str(s))) == s && FlagOf(Some(Bool(b))) == b && NumberOf(Some(Int(n))) == n
            && SubOf(Some(Map(m))) == m
    ensures TextOf(None) == "" && !FlagOf(None) && NumberOf(None) == 0 && SubOf(None) == map[]
  {
  }

  /** All of a bag's readings at once. */
  lemma ReadsAll(c: Fields)
    ensures forall j :: CS(c, j) == TextOf(At(c, j)) && CB(c, j) == FlagOf(At(c, j)) && CI(c, j) == NumberOf(At(c, j))
              && CMap(c, j) == SubOf(At(c, j))
    ensures forall s: string :: TextOf(Some(Str(s))) == s
    ensures forall b: bool :: FlagOf(Some(Bool(b))) == b
    ensures forall n: int :: NumberOf(Some(Int(n))) == n
    ensures TextOf(None) == "" && !FlagOf(None) && NumberOf(None) == 0
  {
    hide CS, CB, CI, CMap, At;
    forall j { ReadsAt(c, j); }
    forall s: string { ReadsPlain(s, true, 0, map[]); }
    forall b: bool { ReadsPlain("", b, 0, map[]); }
    forall n: int { ReadsPlain("", true, n, map[]); }
    ReadsPlain("", true, 0, map[]);
  }

  // ---------- the parser's accessors ----------

  function JText(m: Fields, k: string): string { if k in m && m[k].Str? then TrimSpace(m[k].s) else "" }

  function ToInt(v: Value): int
  {
    match v
    case Float(x) => Truncate(x)
    case Int(n) => n
    case Str(s) => AtoiPort(s)
    case _ => 0
  }

  function JInt(m: Fields, k: string): int { if k in m then ToInt(m[k]) else 0 }

  predicate JFlag(m: Fields, k: string) { k in m && m[k].Bool? && m[k].b }

  function JMap(m: Fields, k: string): Option<Fields> { if k in m && m[k].Map? then Some(m[k].m) else None }

  /** The parser's reading of a decoded object, key by key. */
  lemma JReads(m: Fields, j: string)
    ensures var d, v := DecodedFields(m), At(m, j);
            && (v.None? ==> JText(d, j) == "" && JInt(d, j) == 0 && !JFlag(d, j) && JMap(d, j) == None)
            && (v.Some? && v.value.Str? ==> JText(d, j) == TrimSpace(v.value.s))
            && (v.Some? && v.value.Int? ==> JInt(d, j) == v.value.n)
            && (v.Some? && v.value.Bool? ==> JFlag(d, j) == v.value.b)
            && (v.Some? && v.value.Map? ==> JMap(d, j) == Some(DecodedFields(v.value.m)))
  {
    hide TrimSpace;
    if j in m && m[j].Map? { DecodedMap(m[j].m); }
  }

  /** The same for all keys at once. */
  lemma JReadsAll(m: Fields)
    ensures forall j :: var d, v := DecodedFields(m), At(m, j);
              && (v.None? ==> JText(d, j) == "" && JInt(d, j) == 0 && !JFlag(d, j) && JMap(d, j) == None)
              && (v.Some? && v.value.Str? ==> JText(d, j) == TrimSpace(v.value.s))
              && (v.Some? && v.value.Int? ==> JInt(d, j) == v.value.n)
              && (v.Some? && v.value.Bool? ==> JFlag(d, j) == v.value.b)
              && (v.Some? && v.value.Map? ==> JMap(d, j) == Some(DecodedFields(v.value.m)))
  {
    hide *;
    forall j { JReads(m, j); }
  }
}
