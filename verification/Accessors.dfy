/** The typed accessors over a field bag (internal/generator/common.go). */
module Accessors {
  import opened Text
  import opened Decimal
  import opened Values

  /** Go's conversion of a float64 to int: towards zero. */
  function Truncate(x: real): int { if x >= 0.0 then x.Floor else -((-x).Floor) }

  function CS(c: Fields, k: string): string
  {
    if k !in c then "" else
    match c[k]
    case Str(s) => s
    case Int(n) => Itoa(n)
    case Float(x) => Itoa(Truncate(x))
    case _ => ""
  }

  predicate IsYes(s: string) { ToLower(TrimSpace(s)) in {"1", "true", "yes", "on"} }

  predicate CB(c: Fields, k: string)
  {
    k in c &&
    match c[k]
    case Bool(b) => b
    case Str(s) => IsYes(s)
    case Int(n) => n != 0
    case _ => false
  }

  function CI(c: Fields, k: string): int
  {
    if k !in c then 0 else
    match c[k]
    case Int(n) => n
    case Float(x) => Truncate(x)
    case Str(s) => if Atoi(TrimSpace(s)).ok then Atoi(TrimSpace(s)).value else 0
    case _ => 0
  }

  /** A missing or different value reads as the nil map. */
  function CMap(c: Fields, k: string): Fields
  {
    if k in c && c[k].Map? then c[k].m else map[]
  }

  function FirstNonEmpty(a: string, b: string): string { if a != "" then a else b }

  function GetSNI(c: Fields): string { FirstNonEmpty(CS(c, "servername"), CS(c, "sni")) }

  // ---------- the flags the pipeline stamps ----------

  /** The two bags agree on UDP, TCP fast open and certificate checks. */
  predicate SameFlags(c: Fields, d: Fields)
  {
    (CB(c, "udp") <==> CB(d, "udp")) && (CB(c, "tfo") <==> CB(d, "tfo"))
        && (CB(c, "skip-cert-verify") <==> CB(d, "skip-cert-verify"))
  }

  /** The flags of a node read from an ss or ssr link. */
  predicate ReadFlags(c: Fields) { CB(c, "udp") && !CB(c, "tfo") && !CB(c, "skip-cert-verify") }

  // ---------- reading what was just set ----------

  /** Set, then read: the new value at its own key, the old one elsewhere. */
  lemma ReadWith(c: Fields, k: string, s: string, j: string)
    ensures j == k && (s != "" || k !in c) ==> CS(With(c, k, Str(s)), j) == s
    ensures j != k ==> CS(With(c, k, Str(s)), j) == CS(c, j) && CI(With(c, k, Str(s)), j) == CI(c, j)
    ensures j != k ==> CB(With(c, k, Str(s)), j) == CB(c, j) && CMap(With(c, k, Str(s)), j) == CMap(c, j)
    ensures j != k ==> (j in With(c, k, Str(s)) <==> j in c)
  {
  }

  /** A key set to any value leaves the others. */
  lemma ReadOther(c: Fields, k: string, v: Value, j: string)
    requires j != k
    ensures CS(c[k := v], j) == CS(c, j) && CI(c[k := v], j) == CI(c, j)
    ensures CB(c[k := v], j) == CB(c, j) && CMap(c[k := v], j) == CMap(c, j)
    ensures j in c[k := v] <==> j in c
  {
  }
}
