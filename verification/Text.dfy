/**
  The string helpers the converters lean on. A Go string is a sequence of bytes; here it is a
  `string` whose chars are bytes. Case mapping is the ASCII one.
 */
module Text {
  predicate IsBytes(s: string) { forall i :: 0 <= i < |s| ==> s[i] as int < 256 }

  predicate IsLetter(c: char) { 'a' <= c <= 'z' || 'A' <= c <= 'Z' }

  /** Printable ASCII other than the space. */
  predicate IsGraph(c: char) { '!' <= c <= '~' }

  // ---------- case ----------

  function LowerChar(c: char): char { if 'A' <= c <= 'Z' then c + ' ' else c }

  function UpperChar(c: char): char { if 'a' <= c <= 'z' then c - ' ' else c }

  function ToLower(s: string): (r: string)
    ensures |r| == |s|
  {
    seq(|s|, i requires 0 <= i < |s| => LowerChar(s[i]))
  }

  function ToUpper(s: string): (r: string)
    ensures |r| == |s|
  {
    seq(|s|, i requires 0 <= i < |s| => UpperChar(s[i]))
  }

  predicate EqualFold(a: string, b: string) { ToLower(a) == ToLower(b) }

  // ---------- order ----------

  /** Byte-wise order of strings. */
  predicate Less(a: string, b: string)
  {
    b != "" && (a == "" || a[0] < b[0] || (a[0] == b[0] && Less(a[1..], b[1..])))
  }

  // ---------- searching ----------

  function Index(s: string, c: char): (r: int)
    ensures -1 <= r < |s|
    ensures r >= 0 ==> s[r] == c && c !in s[..r]
    ensures r < 0 <==> c !in s
  {
    if s == "" then -1
    else if s[0] == c then 0
    else
      var i := Index(s[1..], c);
      if i < 0 then -1 else assert s[..i + 1] == [s[0]] + s[1..][..i]; i + 1
  }

  function LastIndex(s: string, c: char): (r: int)
    ensures -1 <= r < |s|
    ensures r >= 0 ==> s[r] == c
    ensures forall k :: r < k < |s| ==> s[k] != c
  {
    if s == "" then -1
    else
      var n := |s| - 1;
      if s[n] == c then n else LastIndex(s[..n], c)
  }

  /** Where sub first occurs. */
  function IndexOf(s: string, sub: string): (r: int)
    ensures -1 <= r <= |s|
    ensures r >= 0 ==> sub <= s[r..] && forall i :: 0 <= i < r ==> !(sub <= s[i..])
    ensures r < 0 ==> forall i :: 0 <= i <= |s| ==> !(sub <= s[i..])
  {
    if sub <= s then 0
    else if s == "" then -1
    else
      var i := IndexOf(s[1..], sub);
      assert forall j :: 1 <= j <= |s| ==> s[1..][j - 1..] == s[j..];
      if i < 0 then -1 else i + 1
  }

  predicate Contains(s: string, sub: string) { IndexOf(s, sub) >= 0 }

  predicate HasSuffix(s: string, t: string) { |t| <= |s| && s[|s| - |t|..] == t }

  lemma PrefixHead(s: string, r: nat, sub: string)
    requires r <= |s| && sub != "" && sub <= s[r..]
    ensures sub[0] in s
  {
    assert s[r] == s[r..][0] == sub[0];
  }

  lemma NotContained(s: string, sub: string)
    requires sub != "" && sub[0] !in s
    ensures !Contains(s, sub)
  {
    var r := IndexOf(s, sub);
    if r >= 0 { PrefixHead(s, r, sub); }
  }

  datatype CutResult = CutResult(before: string, after: string, found: bool)

  function Cut(s: string, c: char): CutResult
  {
    var i := Index(s, c);
    if i < 0 then CutResult(s, "", false) else CutResult(s[..i], s[i + 1..], true)
  }

  lemma IndexAt(a: string, c: char, b: string)
    requires c !in a
    ensures Index(a + [c] + b, c) == |a|
  {
    var s := a + [c] + b;
    assert s[|a|] == c;
  }

  lemma LastIndexAt(a: string, c: char, b: string)
    requires c !in b
    ensures LastIndex(a + [c] + b, c) == |a|
  {
    var s := a + [c] + b;
    assert s[|a|] == c;
  }

  lemma CutAt(a: string, c: char, b: string)
    requires c !in a
    ensures Cut(a + [c] + b, c) == CutResult(a, b, true)
  {
    IndexAt(a, c, b);
    var s := a + [c] + b;
    assert s[..|a|] == a && s[|a| + 1..] == b;
  }

  // ---------- splitting and joining ----------

  function Split(s: string, c: char): (r: seq<string>)
    ensures |r| >= 1
    decreases |s|
  {
    var i := Index(s, c);
    if i < 0 then [s] else [s[..i]] + Split(s[i + 1..], c)
  }

  function Join(parts: seq<string>, sep: string): string
  {
    if |parts| == 0 then "" else if |parts| == 1 then parts[0] else parts[0] + sep + Join(parts[1..], sep)
  }

  lemma {:induction false} SplitJoin(parts: seq<string>, c: char)
    requires |parts| >= 1 && forall i :: 0 <= i < |parts| ==> c !in parts[i]
    ensures Split(Join(parts, [c]), c) == parts
    decreases |parts|
  {
    if |parts| == 1 {
      assert c !in parts[0];
    } else {
      var rest := Join(parts[1..], [c]);
      IndexAt(parts[0], c, rest);
      var s := parts[0] + [c] + rest;
      assert s[..|parts[0]|] == parts[0] && s[|parts[0]| + 1..] == rest;
      SplitJoin(parts[1..], c);
      assert Join(parts, [c]) == s;
    }
  }

  lemma {:induction false} SplitAvoids(s: string, c: char)
    ensures forall i :: 0 <= i < |Split(s, c)| ==> c !in Split(s, c)[i]
    ensures Join(Split(s, c), [c]) == s
    decreases |s|
  {
    var i := Index(s, c);
    if i >= 0 {
      SplitAvoids(s[i + 1..], c);
      assert s == s[..i] + [c] + s[i + 1..];
      assert Split(s, c)[1..] == Split(s[i + 1..], c);
    }
  }

  lemma JoinOne(a: string, sep: string)
    ensures Join([a], sep) == a
  {
  }

  lemma {:induction false} JoinSnoc(parts: seq<string>, last: string, sep: string)
    requires parts != []
    ensures Join(parts + [last], sep) == Join(parts, sep) + sep + last
  {
    if |parts| == 1 {
      assert (parts + [last])[1..] == [last];
    } else {
      JoinSnoc(parts[1..], last, sep);
      assert (parts + [last])[1..] == parts[1..] + [last];
      var head, tail := parts[0] + sep, Join(parts[1..], sep);
      assert Join(parts, sep) == head + tail;
      assert Join(parts + [last], sep) == head + (tail + sep + last);
    }
  }

  function ReplaceChar(s: string, c: char, sub: string): string
  {
    if s == "" then "" else (if s[0] == c then sub else [s[0]]) + ReplaceChar(s[1..], c, sub)
  }

  // ---------- white space ----------

  /** Bytes of the first rune of s when it is white space, else 0 (unicode.IsSpace, in UTF-8). */
  function SpacePrefix(s: string): (n: nat)
    ensures n <= |s| && n <= 3
  {
    if |s| >= 1 && ('\t' <= s[0] <= '\r' || s[0] == ' ') then 1
    else if |s| >= 2 && IsSpace2(s[0], s[1]) then 2
    else if |s| >= 3 && IsSpace3(s[0], s[1], s[2]) then 3
    else 0
  }

  function SpaceSuffix(s: string): (n: nat)
    ensures n <= |s| && n <= 3
  {
    var k := |s|;
    if k >= 1 && ('\t' <= s[k - 1] <= '\r' || s[k - 1] == ' ') then 1
    else if k >= 2 && IsSpace2(s[k - 2], s[k - 1]) then 2
    else if k >= 3 && IsSpace3(s[k - 3], s[k - 2], s[k - 1]) then 3
    else 0
  }

  /** U+0085 and U+00A0. */
  predicate IsSpace2(a: char, b: char) { a as int == 0xC2 && (b as int == 0x85 || b as int == 0xA0) }

  /** U+1680, U+2000 to U+200A, U+2028, U+2029, U+202F, U+205F and U+3000. */
  predicate IsSpace3(a: char, b: char, c: char)
  {
    var x, y, z := a as int, b as int, c as int;
    || (x == 0xE1 && y == 0x9A && z == 0x80)
    || (x == 0xE2 && y == 0x80 && (0x80 <= z <= 0x8A || z == 0xA8 || z == 0xA9 || z == 0xAF))
    || (x == 0xE2 && y == 0x81 && z == 0x9F)
    || (x == 0xE3 && y == 0x80 && z == 0x80)
  }

  function TrimLeft(s: string): string
    decreases |s|
  {
    var n := SpacePrefix(s);
    if n == 0 then s else TrimLeft(s[n..])
  }

  function TrimRight(s: string): string
    decreases |s|
  {
    var n := SpaceSuffix(s);
    if n == 0 then s else TrimRight(s[..|s| - n])
  }

  function TrimSpace(s: string): string { TrimRight(TrimLeft(s)) }

  predicate Trimmed(s: string) { SpacePrefix(s) == 0 && SpaceSuffix(s) == 0 }

  lemma TrimmedIsFixed(s: string)
    requires Trimmed(s)
    ensures TrimSpace(s) == s
  {
  }

  lemma GraphIsTrimmed(s: string)
    requires s != "" && IsGraph(s[0]) && IsGraph(s[|s| - 1])
    ensures Trimmed(s) && TrimSpace(s) == s
  {
  }

  lemma {:induction false} TrimLeftTrims(s: string)
    ensures SpacePrefix(TrimLeft(s)) == 0
    ensures |TrimLeft(s)| <= |s| && TrimLeft(s) == s[|s| - |TrimLeft(s)|..]
    decreases |s|
  {
    var n := SpacePrefix(s);
    if n > 0 { TrimLeftTrims(s[n..]); }
  }

  lemma {:induction false} TrimRightTrims(s: string)
    ensures SpaceSuffix(TrimRight(s)) == 0
    ensures TrimRight(s) <= s
    decreases |s|
  {
    var n := SpaceSuffix(s);
    if n > 0 { TrimRightTrims(s[..|s| - n]); }
  }

  /** What TrimSpace returns it would return again. */
  lemma TrimSpaceTrims(s: string)
    ensures Trimmed(TrimSpace(s)) && TrimSpace(TrimSpace(s)) == TrimSpace(s)
  {
    TrimLeftTrims(s);
    TrimRightTrims(TrimLeft(s));
    TrimmedIsFixed(TrimSpace(s));
  }

  /** Trimming adds no character. */
  lemma TrimSpaceWithin(s: string, c: char)
    requires c !in s
    ensures c !in TrimSpace(s)
  {
    TrimLeftTrims(s);
    TrimRightTrims(TrimLeft(s));
    var t := TrimLeft(s);
    assert forall i :: 0 <= i < |t| ==> t[i] == s[|s| - |t| + i];
    assert forall i :: 0 <= i < |TrimSpace(s)| ==> TrimSpace(s)[i] == t[i];
  }

  // ---------- trimming a set of characters ----------

  function TrimLeftSet(s: string, cut: set<char>): string
  {
    if s != "" && s[0] in cut then TrimLeftSet(s[1..], cut) else s
  }

  function TrimRightSet(s: string, cut: set<char>): string
  {
    if s != "" && s[|s| - 1] in cut then TrimRightSet(s[..|s| - 1], cut) else s
  }

  function TrimSet(s: string, cut: set<char>): string { TrimRightSet(TrimLeftSet(s, cut), cut) }

  function TrimPrefix(s: string, prefix: string): string { if prefix <= s then s[|prefix|..] else s }

  lemma Regroup(a: string, b: string, c: string)
    ensures a + (b + c) == a + b + c
  {
  }
}
