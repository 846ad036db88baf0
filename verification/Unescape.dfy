/**
  unescapeUnicode (internal/generator/clash.go): \uXXXX and \UXXXXXXXX escapes outside ASCII in the
  YAML text become raw UTF-8.
 */
module Unescape {
  import opened Wrappers
  import opened Text
  import opened Percent
  import opened Utf8

  // ---------- strconv.ParseInt(s, 16, 32) ----------

  predicate AllHex(s: string) { forall i :: 0 <= i < |s| ==> Unhex(s[i]) >= 0 }

  function HexValue(s: string): nat
    requires AllHex(s)
  {
    if s == "" then 0 else HexValue(s[..|s| - 1]) * 16 + Unhex(s[|s| - 1])
  }

  /** A sign is accepted, as ParseInt does; None is any error. */
  function ParseInt(s: string): Option<int>
  {
    var signed := s != "" && (s[0] == '+' || s[0] == '-');
    var body := if signed then s[1..] else s;
    if body == "" || !AllHex(body) then None
    else
      var n := if signed && s[0] == '-' then 0 - HexValue(body) else HexValue(body);
      if -0x8000_0000 <= n < 0x8000_0000 then Some(n) else None
  }

  // ---------- the rewriter ----------

  datatype Step = Step(out: string, size: nat, rewrote: bool)

  /** The rune of the escape that s starts with, when it is one to rewrite. */
  function Escape(s: string, digits: nat): Option<int>
    requires |s| >= 2
  {
    if |s| < 2 + digits then None
    else
      var r := ParseInt(s[2..2 + digits]);
      if r.Some? && r.value >= 0x80 then r else None
  }

  function StepOf(s: string): (st: Step)
    requires s != ""
    ensures 1 <= st.size <= |s|
  {
    var plain := Step([s[0]], 1, false);
    if s[0] == '\\' && |s| >= 2 then
      if s[1] == '\\' then Step("\\\\", 2, false)
      else if s[1] == 'U' && Escape(s, 8).Some? then Step(EncodeRune(Escape(s, 8).value), 10, true)
      else if s[1] == 'u' && Escape(s, 4).Some? then Step(EncodeRune(Escape(s, 4).value), 6, true)
      else plain
    else plain
  }

  function Unescaped(s: string): string
    decreases |s|
  {
    if s == "" then "" else StepOf(s).out + Unescaped(s[StepOf(s).size..])
  }

  method UnescapeUnicode(s: string) returns (sb: string)
    ensures sb == Unescaped(s)
  {
    hide ParseInt, EncodeRune, Unescaped;
    sb := "";
    UnescapedNothing();
    var i := 0;
    while i < |s|
      invariant 0 <= i <= |s|
      invariant sb + Unescaped(s[i..]) == Unescaped(s)
    {
      StepAt(s, i, sb);
      ghost var st := StepOf(s[i..]);
      if s[i] == '\\' && i + 1 < |s| {
        match s[i + 1] {
          case '\\' =>
            sb := sb + "\\\\";
            i := i + 2;
            continue;
          case 'U' =>
            if i + 10 <= |s| {
              var r := ParseInt(s[i + 2..i + 10]);
              SliceOfDrop(s, i, 2, 10);
              if r.Some? && r.value >= 0x80 {
                assert st == Step(EncodeRune(r.value), 10, true);
                sb := sb + EncodeRune(r.value);
                i := i + 10;
                continue;
              }
            }
            assert st == Step([s[i]], 1, false);
          case 'u' =>
            if i + 6 <= |s| {
              var r := ParseInt(s[i + 2..i + 6]);
              SliceOfDrop(s, i, 2, 6);
              if r.Some? && r.value >= 0x80 {
                assert st == Step(EncodeRune(r.value), 6, true);
                sb := sb + EncodeRune(r.value);
                i := i + 6;
                continue;
              }
            }
            assert st == Step([s[i]], 1, false);
          case _ =>
            assert st == Step([s[i]], 1, false);
        }
      } else {
        assert st == Step([s[i]], 1, false);
      }
      sb := sb + [s[i]];
      i := i + 1;
    }
    assert s[|s|..] == "" && sb + "" == sb;
  }

  lemma UnescapedNothing()
    ensures Unescaped("") == ""
  {
  }

  lemma StepAt(s: string, i: nat, before: string)
    requires i < |s| && before + Unescaped(s[i..]) == Unescaped(s)
    ensures var st := StepOf(s[i..]); before + st.out + Unescaped(s[i + st.size..]) == Unescaped(s)
  {
    hide StepOf, Unescaped;
    var st := StepOf(s[i..]);
    UnescapedStep(s[i..]);
    DropTwice(s, i, st.size);
    Regroup(before, st.out, Unescaped(s[i + st.size..]));
  }

  lemma UnescapedStep(x: string)
    requires x != ""
    ensures Unescaped(x) == StepOf(x).out + Unescaped(x[StepOf(x).size..])
  {
    hide StepOf;
  }

  lemma DropTwice(s: string, i: nat, k: nat)
    requires i + k <= |s|
    ensures s[i..][k..] == s[i + k..]
  {
  }

  lemma SliceOfDrop(s: string, i: nat, j: nat, k: nat)
    requires i + j <= i + k <= |s|
    ensures s[i..][j..k] == s[i + j..i + k]
  {
  }

  // ---------- twice is once ----------

  lemma {:induction false} PassThrough(p: string, rest: string)
    requires '\\' !in p
    ensures Unescaped(p + rest) == p + Unescaped(rest)
  {
    hide Unescaped;
    if p == "" {
      assert p + rest == rest && p + Unescaped(rest) == Unescaped(rest);
    } else {
      PassThrough(p[1..], rest);
      Behead(p, rest);
      CopyOne(p + rest);
      Regroup([p[0]], p[1..], Unescaped(rest));
    }
  }

  lemma Behead(p: string, rest: string)
    requires p != ""
    ensures (p + rest)[0] == p[0] && (p + rest)[1..] == p[1..] + rest && [p[0]] + p[1..] == p
  {
  }

  /** An ASCII byte other than the backslash. */
  predicate IsOrdinary(c: char) { c as int < 0x80 && c != '\\' }

  /** Ordinary bytes at the front of the result stood at the front of the input. */
  lemma {:induction false} OrdinaryFront(x: string, k: nat)
    requires k <= |Unescaped(x)| && forall i :: 0 <= i < k ==> IsOrdinary(Unescaped(x)[i])
    ensures k <= |x| && x[..k] == Unescaped(x)[..k]
  {
    hide *;
    if k > 0 {
      FirstByte(x);
      OrdinaryRest(x[0], Unescaped(x[1..]), k);
      OrdinaryFront(x[1..], k - 1);
      SameFront(x, Unescaped(x[1..]), k);
    }
  }

  lemma OrdinaryRest(c: char, rest: string, k: nat)
    requires 1 <= k <= |rest| + 1 && forall i :: 0 <= i < k ==> IsOrdinary(([c] + rest)[i])
    ensures forall i :: 0 <= i < k - 1 ==> IsOrdinary(rest[i])
  {
    assert forall i :: 0 <= i < k - 1 ==> rest[i] == ([c] + rest)[i + 1];
  }

  lemma SameFront(x: string, rest: string, k: nat)
    requires x != "" && 1 <= k <= |x| && k - 1 <= |rest| && x[1..][..k - 1] == rest[..k - 1]
    ensures x[..k] == ([x[0]] + rest)[..k]
  {
    assert x[..k] == [x[0]] + x[1..][..k - 1];
    assert ([x[0]] + rest)[..k] == [x[0]] + rest[..k - 1];
  }

  lemma FirstByte(x: string)
    requires Unescaped(x) != "" && IsOrdinary(Unescaped(x)[0])
    ensures x != "" && Unescaped(x) == [x[0]] + Unescaped(x[1..])
  {
    var st := StepOf(x);
    OutHead(x);
    hide StepOf;
    assert Unescaped(x) == st.out + Unescaped(x[st.size..]);
    assert Unescaped(x)[0] == st.out[0];
  }

  /** What a step writes starts with an ordinary byte only when it copies that byte. */
  lemma OutHead(x: string)
    requires x != ""
    ensures var st := StepOf(x); st.out != "" && (IsOrdinary(st.out[0]) ==> st == Step([x[0]], 1, false))
  {
    if StepOf(x).rewrote {
      var r := if x[1] == 'U' then Escape(x, 8).value else Escape(x, 4).value;
      EncodedIsHigh(r);
    }
    hide EncodeRune, Escape;
  }

  /** The digits of an escape are ordinary bytes. */
  lemma DigitsAreOrdinary(w: string)
    requires ParseInt(w).Some?
    ensures forall i :: 0 <= i < |w| ==> IsOrdinary(w[i])
  {
    var signed := w != "" && (w[0] == '+' || w[0] == '-');
    var body := if signed then w[1..] else w;
    forall i | 0 <= i < |w|
      ensures IsOrdinary(w[i])
    {
      if !(signed && i == 0) { assert w[i] == body[if signed then i - 1 else i]; }
    }
    hide HexValue;
  }

  /** An escape of the result stood in the input, behind the same backslash. */
  lemma OldEscape(s: string, digits: nat)
    requires |s| >= 2 && IsOrdinary(s[1]) && Escape("\\" + [s[1]] + Unescaped(s[2..]), digits).Some?
    ensures Escape(s, digits).Some?
  {
    hide ParseInt, Unescaped;
    var x := Unescaped(s[2..]);
    var u := "\\" + [s[1]] + x;
    var w := u[2..2 + digits];
    DigitsAreOrdinary(w);
    SliceBehind(s[1], x, digits);
    assert forall i :: 0 <= i < digits ==> x[i] == w[i];
    OrdinaryFront(s[2..], digits);
    SliceOfDrop(s, 2, 0, digits);
  }

  lemma SliceBehind(c: char, x: string, k: nat)
    requires k <= |x|
    ensures ("\\" + [c] + x)[2..2 + k] == x[..k]
  {
  }

  /** A backslash that is copied on its own is copied on its own again. */
  lemma LoneAgain(s: string)
    requires s != "" && s[0] == '\\' && StepOf(s) == Step("\\", 1, false)
    ensures StepOf("\\" + Unescaped(s[1..])) == Step("\\", 1, false)
  {
    var t := Unescaped(s[1..]);
    if |s| == 1 {
      UnescapedNothing();
    } else {
      CopyOne(s[1..]);
      assert s[1..][1..] == s[2..];
      hide Unescaped;
      var u := "\\" + [s[1]] + Unescaped(s[2..]);
      assert u == "\\" + t;
      if s[1] == 'U' && Escape(u, 8).Some? { OldEscape(s, 8); }
      if s[1] == 'u' && Escape(u, 4).Some? { OldEscape(s, 4); }
      hide Escape, EncodeRune;
    }
  }

  lemma CopyOne(t: string)
    requires t != "" && t[0] != '\\'
    ensures Unescaped(t) == [t[0]] + Unescaped(t[1..])
  {
  }

  /** Running the rewriter twice is running it once, on every byte string. */
  lemma {:induction false} UnescapeTwice(s: string)
    ensures Unescaped(Unescaped(s)) == Unescaped(s)
    decreases |s|
  {
    if s != "" {
      var st := StepOf(s);
      var rest := s[st.size..];
      var t := Unescaped(rest);
      UnescapeTwice(rest);
      if st.rewrote {
        var r := if s[1] == 'U' then Escape(s, 8).value else Escape(s, 4).value;
        EncodedIsHigh(r);
        hide EncodeRune, Escape;
        PassThrough(st.out, t);
      } else if s[0] != '\\' {
        PassThrough([s[0]], t);
      } else if st.size == 2 {
        PairAgain(t);
      } else {
        LoneAgain(s);
        hide StepOf;
        assert ("\\" + t)[1..] == t;
      }
    }
  }

  lemma PairAgain(t: string)
    ensures Unescaped("\\\\" + t) == "\\\\" + Unescaped(t)
  {
    assert ("\\\\" + t)[2..] == t;
  }

  // ---------- the text of a double-quoted YAML scalar ----------

  /**
    What a double-quoted scalar body says, before its lines are folded (YAML 1.2.2, sections 5.4, 5.7
    and 7.3.1): characters, escaped ASCII characters, and escaped line breaks. Outside ASCII an
    escaped character is the character; no non-ASCII break is a line break.
   */
  datatype Atom = Char(code: int) | EscapedAscii(code: int) | Joined

  datatype Taken = Taken(atom: Atom, size: nat)

  function Coded(code: int): Atom { if code >= 0x80 then Char(code) else EscapedAscii(code) }

  function NamedEscape(c: char): Option<int>
  {
    match c
    case '0' => Some(0)
    case 'a' => Some(7)
    case 'b' => Some(8)
    case 't' => Some(9)
    case '\t' => Some(9)
    case 'n' => Some(10)
    case 'v' => Some(11)
    case 'f' => Some(12)
    case 'r' => Some(13)
    case 'e' => Some(27)
    case ' ' => Some(32)
    case '"' => Some(34)
    case '/' => Some(47)
    case '\\' => Some(92)
    case 'N' => Some(0x85)
    case '_' => Some(0xA0)
    case 'L' => Some(0x2028)
    case 'P' => Some(0x2029)
    case _ => None
  }

  function Digits(c: char): nat { if c == 'x' then 2 else if c == 'u' then 4 else if c == 'U' then 8 else 0 }

  /** The first atom of a body; None where the body is not well formed. */
  function AtomOf(b: string): (t: Option<Taken>)
    ensures t.Some? ==> 1 <= t.value.size <= |b|
  {
    if b == "" then None
    else if b[0] == '\\' then
      if |b| < 2 then None
      else if Digits(b[1]) > 0 then HexAtom(b, Digits(b[1]))
      else if b[1] == '\n' then Some(Taken(Joined, 2))
      else if NamedEscape(b[1]).Some? then Some(Taken(Coded(NamedEscape(b[1]).value), 2))
      else None
    else if b[0] == '"' || (b[0] < ' ' && b[0] != '\t' && b[0] != '\n') then None
    else
      var r := DecodeRune(b);
      if r.None? then None else Some(Taken(Char(r.value.code), r.value.size))
  }

  function HexAtom(b: string, n: nat): (t: Option<Taken>)
    requires |b| >= 2
    ensures t.Some? ==> t.value.size == n + 2 <= |b|
  {
    if |b| < 2 + n || !AllHex(b[2..2 + n]) || !IsScalar(HexValue(b[2..2 + n])) then None
    else Some(Taken(Coded(HexValue(b[2..2 + n])), n + 2))
  }

  function Atoms(b: string): Option<seq<Atom>>
    decreases |b|
  {
    if b == "" then Some([])
    else
      var t := AtomOf(b);
      if t.None? then None
      else
        var rest := Atoms(b[t.value.size..]);
        if rest.None? then None else Some([t.value.atom] + rest.value)
  }

  /** What the rewriter makes of the first atom's text. */
  function Rewritten(b: string): string
    requires AtomOf(b).Some?
  {
    if StepOf(b).rewrote then StepOf(b).out else b[..AtomOf(b).value.size]
  }

  lemma HexParses(w: string)
    requires w != "" && AllHex(w) && HexValue(w) < 0x8000_0000
    ensures ParseInt(w) == Some(HexValue(w))
  {
    assert Unhex(w[0]) >= 0;
  }

  /** A well-formed escape is rewritten exactly when it is a u or U escape outside ASCII, and then whole. */
  lemma RewrittenWhole(b: string)
    requires AtomOf(b).Some?
    ensures StepOf(b).rewrote ==> StepOf(b).size == AtomOf(b).value.size && AtomOf(b).value.atom.Char?
                                  && StepOf(b).out == EncodeRune(AtomOf(b).value.atom.code)
                                  && AtomOf(b).value.atom.code >= 0x80 && IsScalar(AtomOf(b).value.atom.code)
  {
    if b[0] == '\\' && Digits(b[1]) > 0 {
      HexParses(b[2..2 + Digits(b[1])]);
    }
    hide ParseInt, HexValue, EncodeRune, AllHex;
  }

  lemma NoBackslash(b: string)
    requires AtomOf(b).Some?
    ensures b[0] != '\\' ==> '\\' !in b[..AtomOf(b).value.size]
    ensures b[0] == '\\' && b[1] != '\\' ==> '\\' !in b[1..AtomOf(b).value.size]
  {
    var n := AtomOf(b).value.size;
    if b[0] == '\\' && Digits(b[1]) > 0 {
      forall i | 2 <= i < n
        ensures b[i] != '\\'
      {
        assert Unhex(b[2..n][i - 2]) >= 0;
      }
    }
    hide HexValue;
  }

  /** The rewriter treats the first atom's text on its own. */
  lemma StepsByAtom(b: string)
    requires AtomOf(b).Some?
    ensures Unescaped(b) == Rewritten(b) + Unescaped(b[AtomOf(b).value.size..])
  {
    hide Unescaped;
    var n := AtomOf(b).value.size;
    var chunk, rest := b[..n], b[n..];
    assert b == chunk + rest;
    RewrittenWhole(b);
    NoBackslash(b);
    UnescapedStep(b);
    if !StepOf(b).rewrote {
      if b[0] != '\\' {
        hide StepOf, AtomOf;
        PassThrough(chunk, rest);
      } else if b[1] == '\\' {
        assert n == 2 && chunk == "\\\\";
      } else {
        assert StepOf(b) == Step("\\", 1, false);
        hide StepOf, AtomOf;
        assert b[1..] == b[1..n] + rest;
        PassThrough(b[1..n], rest);
        Regroup("\\", b[1..n], Unescaped(rest));
        assert "\\" + b[1..n] == chunk;
      }
    }
  }

  /** An atom's text says the same whatever follows it. */
  lemma AtomPrefix(b: string, rest: string)
    requires AtomOf(b).Some?
    ensures AtomOf(b[..AtomOf(b).value.size] + rest) == AtomOf(b)
  {
    var n := AtomOf(b).value.size;
    var c := b[..n] + rest;
    assert c[0] == b[0];
    if b[0] == '\\' {
      assert c[1] == b[1];
      assert c[2..n] == b[2..n];
    } else {
      DecodePrefix(b, rest);
    }
    hide DecodeRune, HexValue, IsScalar;
  }

  lemma RewrittenSays(b: string, rest: string)
    requires AtomOf(b).Some?
    ensures Rewritten(b) != "" && AtomOf(Rewritten(b) + rest) == Some(Taken(AtomOf(b).value.atom, |Rewritten(b)|))
  {
    RewrittenWhole(b);
    if StepOf(b).rewrote {
      var code := AtomOf(b).value.atom.code;
      EncodedIsHigh(code);
      DecodeEncode(code, rest);
      hide AtomOf, StepOf, EncodeRune;
      HighAtom(EncodeRune(code) + rest, code, |EncodeRune(code)|);
    } else {
      AtomPrefix(b, rest);
    }
  }

  lemma HighAtom(b: string, code: int, n: nat)
    requires b != "" && b[0] as int >= 0x80 && DecodeRune(b) == Some(Rune(code, n))
    ensures AtomOf(b) == Some(Taken(Char(code), n))
  {
    hide DecodeRune;
  }

  /** The rewriter keeps the text of every well-formed double-quoted scalar body. */
  lemma {:induction false} TextIsKept(b: string)
    requires Atoms(b).Some?
    ensures Atoms(Unescaped(b)) == Atoms(b)
    decreases |b|
  {
    hide AtomOf, Rewritten;
    if b == "" {
      UnescapedNothing();
    } else {
      var n := AtomOf(b).value.size;
      TextIsKept(b[n..]);
      StepsByAtom(b);
      hide Unescaped;
      var x := Unescaped(b[n..]);
      RewrittenSays(b, x);
      assert (Rewritten(b) + x)[|Rewritten(b)|..] == x;
    }
  }

  // ---------- outside double quotes ----------

  /** Some escape of the text is rewritten. */
  predicate HasLiveEscape(s: string)
    decreases |s|
  {
    s != "" && (StepOf(s).rewrote || HasLiveEscape(s[StepOf(s).size..]))
  }

  /** Any text without such an escape is copied as it is; with one, it gets shorter. */
  lemma {:induction false} CopiedIff(s: string)
    ensures |Unescaped(s)| <= |s|
    ensures Unescaped(s) == s <==> !HasLiveEscape(s)
    decreases |s|
  {
    hide Unescaped, StepOf;
    if s == "" {
      UnescapedNothing();
    } else {
      var n := StepOf(s).size;
      CopiedIff(s[n..]);
      StepIsShort(s);
      UnescapedStep(s);
      SameTails(s, n, Unescaped(s[n..]));
    }
  }

  lemma SameTails(s: string, n: nat, t: string)
    requires n <= |s|
    ensures s[..n] + t == s <==> t == s[n..]
  {
    assert s == s[..n] + s[n..];
    if s[..n] + t == s { assert t == (s[..n] + t)[n..]; }
  }

  lemma StepIsShort(s: string)
    requires s != ""
    ensures var st := StepOf(s); if st.rewrote then |st.out| < st.size else st.out == s[..st.size]
  {
    if StepOf(s).rewrote {
      var r := if s[1] == 'U' then Escape(s, 8).value else Escape(s, 4).value;
      EncodedIsHigh(r);
    }
    hide EncodeRune, Escape;
  }

  /** A plain scalar may hold a literal backslash, u and four digits; the rewriter changes such a text. */
  lemma PlainScalarIsRewritten()
    ensures Unescaped("C:\\u00e9") != "C:\\u00e9"
  {
    var s := "C:\\u00e9";
    assert s[2..][2..6] == "00e9";
    NotDigits();
    assert StepOf(s[2..]).rewrote;
    assert StepOf(s) == Step("C", 1, false);
    assert StepOf(s[1..]) == Step(":", 1, false);
    hide StepOf;
    assert s[1..][1..] == s[2..];
    assert HasLiveEscape(s[2..]) && HasLiveEscape(s[1..]) && HasLiveEscape(s);
    CopiedIff(s);
  }

  lemma NotDigits()
    ensures ParseInt("00e9") == Some(0xe9)
  {
    var w := "00e9";
    assert w[..3] == "00e" && "00e"[..2] == "00" && "00"[..1] == "0" && "0"[..0] == "";
    assert HexValue("0") == 0 && HexValue("00") == 0 && HexValue("00e") == 14;
    assert HexValue(w) == 0xe9;
  }
}
