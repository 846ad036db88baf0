/**
  Base64, sections 4 and 5 of RFC 4648, as Go's encoding/base64 does it: CR and LF are ignored when
  decoding and the unused bits of the last symbol are not checked. b64decode tries four variants in
  turn (internal/parser/util.go).
 */
module Base64 {
  import opened Wrappers
  import opened Text

  datatype Encoding = Encoding(url: bool, padded: bool)

  const STD := Encoding(false, true)
  const RAW_STD := Encoding(false, false)
  const URL := Encoding(true, true)
  const RAW_URL := Encoding(true, false)

  const VARIANTS: seq<Encoding> := [STD, RAW_STD, URL, RAW_URL]

  function Symbol(url: bool, v: int): char
  {
    var n := v % 64;
    if n < 26 then 'A' + n as char
    else if n < 52 then 'a' + (n - 26) as char
    else if n < 62 then '0' + (n - 52) as char
    else if n == 62 then (if url then '-' else '+')
    else if url then '_' else '/'
  }

  /** The value of a symbol, -1 for a character that is none. */
  function Value(url: bool, c: char): (v: int)
    ensures -1 <= v < 64
  {
    if 'A' <= c <= 'Z' then (c - 'A') as int
    else if 'a' <= c <= 'z' then (c - 'a') as int + 26
    else if '0' <= c <= '9' then (c - '0') as int + 52
    else if c == (if url then '-' else '+') then 62
    else if c == (if url then '_' else '/') then 63
    else -1
  }

  predicate IsSymbol(url: bool, c: char) { Value(url, c) >= 0 }

  lemma ValueOfSymbol(url: bool, v: int)
    requires 0 <= v < 64
    ensures Value(url, Symbol(url, v)) == v && Symbol(url, v) != '=' && IsGraph(Symbol(url, v))
  {
  }

  // ---------- encoding ----------

  function Group3(url: bool, a: int, b: int, c: int): string
  {
    [Symbol(url, a / 4), Symbol(url, a % 4 * 16 + b / 16), Symbol(url, b % 16 * 4 + c / 64), Symbol(url, c)]
  }

  function Group2(e: Encoding, a: int, b: int): string
  {
    [Symbol(e.url, a / 4), Symbol(e.url, a % 4 * 16 + b / 16), Symbol(e.url, b % 16 * 4)]
        + (if e.padded then "=" else "")
  }

  function Group1(e: Encoding, a: int): string
  {
    [Symbol(e.url, a / 4), Symbol(e.url, a % 4 * 16)] + (if e.padded then "==" else "")
  }

  function Encode(e: Encoding, s: string): string
  {
    if |s| == 0 then ""
    else if |s| == 1 then Group1(e, s[0] as int)
    else if |s| == 2 then Group2(e, s[0] as int, s[1] as int)
    else Group3(e.url, s[0] as int, s[1] as int, s[2] as int) + Encode(e, s[3..])
  }

  // ---------- decoding ----------

  function Byte(n: int): char { (n % 256) as char }

  function Byte0(v: int, w: int): char { Byte(v * 4 + w / 16) }
  function Byte1(v: int, w: int): char { Byte(v * 16 + w / 4) }
  function Byte2(v: int, w: int): char { Byte(v * 64 + w) }

  function StripNewlines(s: string): string
  {
    if s == "" then "" else (if s[0] == '\n' || s[0] == '\r' then "" else [s[0]]) + StripNewlines(s[1..])
  }

  /** Four symbols make three bytes; what is left at the end follows the padding rule. */
  function Quanta(e: Encoding, t: string): Option<string>
  {
    if t == "" then Some("")
    else if |t| >= 4 && IsSymbol(e.url, t[0]) && IsSymbol(e.url, t[1]) && IsSymbol(e.url, t[2])
        && IsSymbol(e.url, t[3]) then
      var rest := Quanta(e, t[4..]);
      if rest.None? then None
      else
        var v0, v1, v2, v3 := Value(e.url, t[0]), Value(e.url, t[1]), Value(e.url, t[2]), Value(e.url, t[3]);
        Some([Byte0(v0, v1), Byte1(v1, v2), Byte2(v2, v3)] + rest.value)
    else
      var n := Tail(e, t);
      if n < 2 then None
      else
        var v0, v1 := Value(e.url, t[0]), Value(e.url, t[1]);
        if n == 2 then Some([Byte0(v0, v1)]) else Some([Byte0(v0, v1), Byte1(v1, Value(e.url, t[2]))])
  }

  /** The symbols in a last incomplete group, 0 when it is corrupt. */
  function Tail(e: Encoding, t: string): (n: nat)
    ensures n == 0 || n == 2 || n == 3
    ensures n <= |t| && forall i :: 0 <= i < n ==> IsSymbol(e.url, t[i])
  {
    if e.padded then
      if |t| == 4 && IsSymbol(e.url, t[0]) && IsSymbol(e.url, t[1]) && t[3] == '=' then
        if t[2] == '=' then 2 else if IsSymbol(e.url, t[2]) then 3 else 0
      else 0
    else if 2 <= |t| <= 3 && (forall i :: 0 <= i < |t| ==> IsSymbol(e.url, t[i])) then |t|
    else 0
  }

  function Decode(e: Encoding, s: string): Option<string> { Quanta(e, StripNewlines(s)) }

  function FirstDecoded(variants: seq<Encoding>, s: string): Option<string>
  {
    if variants == [] then None
    else
      var d := Decode(variants[0], s);
      if d.Some? then d else FirstDecoded(variants[1..], s)
  }

  /** b64decode's bytes, None where it gives its input back with false. */
  function B64(s: string): Option<string> { FirstDecoded(VARIANTS, TrimSpace(s)) }

  /** What b64decode returns first: the bytes, or the trimmed input. */
  function B64Text(s: string): string { if B64(s).Some? then B64(s).value else TrimSpace(s) }

  lemma B64TextOf(s: string)
    ensures B64(s).Some? ==> B64Text(s) == B64(s).value
  {
  }

  method B64Decode(s: string) returns (text: string, ok: bool)
    ensures ok == B64(s).Some? && text == B64Text(s)
  {
    hide Decode, TrimSpace;
    var t := TrimSpace(s);
    var variants := [STD, RAW_STD, URL, RAW_URL];
    for i := 0 to |variants|
      invariant FirstDecoded(variants, t) == FirstDecoded(variants[i..], t)
    {
      var d := Decode(variants[i], t);
      if d.Some? {
        return d.value, true;
      }
      assert variants[i..][1..] == variants[i + 1..];
    }
    return t, false;
  }

  // ---------- decoding undoes encoding ----------

  lemma First(a: int, b: int)
    requires 0 <= a < 256 && 0 <= b < 256
    ensures 0 <= a / 4 < 64 && 0 <= a % 4 * 16 + b / 16 < 64 && Byte0(a / 4, a % 4 * 16 + b / 16) == a as char
  {
    assert (a % 4 * 16 + b / 16) / 16 == a % 4;
  }

  lemma Second(a: int, b: int, c: int)
    requires 0 <= a < 256 && 0 <= b < 256 && 0 <= c < 256
    ensures 0 <= b % 16 * 4 + c / 64 < 64 && Byte1(a % 4 * 16 + b / 16, b % 16 * 4 + c / 64) == b as char
  {
    assert (b % 16 * 4 + c / 64) / 4 == b % 16;
    assert (a % 4 * 16 + b / 16) * 16 + b % 16 == 256 * (a % 4) + b;
  }

  lemma Third(b: int, c: int)
    requires 0 <= b < 256 && 0 <= c < 256
    ensures 0 <= c % 64 < 64 && Byte2(b % 16 * 4 + c / 64, c % 64) == c as char
  {
    assert (b % 16 * 4 + c / 64) * 64 + c % 64 == 256 * (b % 16) + c;
  }

  lemma SymbolMod(url: bool, c: int)
    ensures Symbol(url, c) == Symbol(url, c % 64)
  {
  }

  lemma Bits3(url: bool, a: int, b: int, c: int)
    requires 0 <= a < 256 && 0 <= b < 256 && 0 <= c < 256
    ensures var g := Group3(url, a, b, c);
            && (forall i :: 0 <= i < 4 ==> IsSymbol(url, g[i]))
            && Byte0(Value(url, g[0]), Value(url, g[1])) == a as char
            && Byte1(Value(url, g[1]), Value(url, g[2])) == b as char
            && Byte2(Value(url, g[2]), Value(url, g[3])) == c as char
  {
    hide Symbol, Value, Byte0, Byte1, Byte2;
    First(a, b);
    Second(a, b, c);
    Third(b, c);
    SymbolMod(url, c);
    var v0, v1, v2, v3 := a / 4, a % 4 * 16 + b / 16, b % 16 * 4 + c / 64, c % 64;
    assert Group3(url, a, b, c) == [Symbol(url, v0), Symbol(url, v1), Symbol(url, v2), Symbol(url, v3)];
    hide Group3;
    ValueOfSymbol(url, v0);
    ValueOfSymbol(url, v1);
    ValueOfSymbol(url, v2);
    ValueOfSymbol(url, v3);
  }

  lemma Bits2(e: Encoding, a: int, b: int)
    requires 0 <= a < 256 && 0 <= b < 256
    ensures Quanta(e, Group2(e, a, b)) == Some([a as char, b as char])
  {
    hide Symbol, Value, Byte0, Byte1, Byte2;
    NotSymbol(e.url);
    First(a, b);
    Second(a, b, 0);
    var v0, v1, v2 := a / 4, a % 4 * 16 + b / 16, b % 16 * 4;
    ValueOfSymbol(e.url, v0);
    ValueOfSymbol(e.url, v1);
    ValueOfSymbol(e.url, v2);
    Tail3(e, Symbol(e.url, v0), Symbol(e.url, v1), Symbol(e.url, v2));
  }

  lemma Tail3(e: Encoding, x: char, y: char, z: char)
    requires IsSymbol(e.url, x) && IsSymbol(e.url, y) && IsSymbol(e.url, z)
    ensures Quanta(e, [x, y, z] + (if e.padded then "=" else "")) ==
            Some([Byte0(Value(e.url, x), Value(e.url, y)), Byte1(Value(e.url, y), Value(e.url, z))])
  {
    NotSymbol(e.url);
    hide Value, Byte0, Byte1;
  }

  lemma Bits1(e: Encoding, a: int)
    requires 0 <= a < 256
    ensures Quanta(e, Group1(e, a)) == Some([a as char])
  {
    hide Symbol, Value, Byte0, Byte1, Byte2;
    First(a, 0);
    ValueOfSymbol(e.url, a / 4);
    ValueOfSymbol(e.url, a % 4 * 16);
    NotSymbol(e.url);
  }

  lemma NotSymbol(url: bool)
    ensures !IsSymbol(url, '=') && !IsSymbol(url, '\n') && !IsSymbol(url, '\r')
  {
  }

  lemma {:induction false} QuantaOfEncode(e: Encoding, s: string)
    requires IsBytes(s)
    ensures Quanta(e, Encode(e, s)) == Some(s)
  {
    if |s| == 1 {
      Bits1(e, s[0] as int);
      assert [s[0]] == s;
    } else if |s| == 2 {
      Bits2(e, s[0] as int, s[1] as int);
      assert [s[0], s[1]] == s;
    } else if |s| >= 3 {
      QuantaOfEncode(e, s[3..]);
      Bits3(e.url, s[0] as int, s[1] as int, s[2] as int);
      hide Group3, IsSymbol, Byte0, Byte1, Byte2;
      assert s == [s[0], s[1], s[2]] + s[3..];
      var g, rest := Group3(e.url, s[0] as int, s[1] as int, s[2] as int), Encode(e, s[3..]);
      GroupLength(e.url, s[0] as int, s[1] as int, s[2] as int);
      assert (g + rest)[4..] == rest;
      hide Encode;
      QuantaStep(e, g + rest);
    }
  }

  lemma GroupLength(url: bool, a: int, b: int, c: int)
    ensures |Group3(url, a, b, c)| == 4
  {
  }

  lemma QuantaStep(e: Encoding, t: string)
    requires |t| >= 4 && IsSymbol(e.url, t[0]) && IsSymbol(e.url, t[1]) && IsSymbol(e.url, t[2])
            && IsSymbol(e.url, t[3])
    ensures var rest := Quanta(e, t[4..]);
            Quanta(e, t) == if rest.None? then None else
              Some([Byte0(Value(e.url, t[0]), Value(e.url, t[1])), Byte1(Value(e.url, t[1]), Value(e.url, t[2])),
                    Byte2(Value(e.url, t[2]), Value(e.url, t[3]))] + rest.value)
  {
  }

  // ---------- the shape of encoded text ----------

  /** A base64 symbol or the pad. */
  predicate IsCode(url: bool, c: char) { IsSymbol(url, c) || c == '=' }

  predicate AllCode(url: bool, t: string) { forall i :: 0 <= i < |t| ==> IsCode(url, t[i]) }

  lemma {:induction false} EncodeIsCode(e: Encoding, s: string)
    requires IsBytes(s)
    ensures AllCode(e.url, Encode(e, s))
    ensures !e.padded ==> forall i :: 0 <= i < |Encode(e, s)| ==> IsSymbol(e.url, Encode(e, s)[i])
    ensures s != "" ==> Encode(e, s) != ""
  {
    if |s| == 1 {
      SymbolIsSymbol(e.url, s[0] as int / 4);
      SymbolIsSymbol(e.url, s[0] as int % 4 * 16);
    } else if |s| == 2 {
      SymbolIsSymbol(e.url, s[0] as int / 4);
      SymbolIsSymbol(e.url, s[0] as int % 4 * 16 + s[1] as int / 16);
      SymbolIsSymbol(e.url, s[1] as int % 16 * 4);
    } else if |s| >= 3 {
      EncodeIsCode(e, s[3..]);
      Bits3(e.url, s[0] as int, s[1] as int, s[2] as int);
      GroupLength(e.url, s[0] as int, s[1] as int, s[2] as int);
      hide Group3;
    }
    hide IsSymbol, Symbol;
  }

  lemma SymbolIsSymbol(url: bool, v: int)
    requires 0 <= v < 64
    ensures IsSymbol(url, Symbol(url, v))
  {
    ValueOfSymbol(url, v);
  }

  lemma {:induction false} StripKeepsCode(url: bool, t: string)
    requires AllCode(url, t)
    ensures StripNewlines(t) == t
  {
    NotSymbol(url);
    if t != "" {
      assert IsCode(url, t[0]);
      StripKeepsCode(url, t[1..]);
      assert [t[0]] + t[1..] == t;
    }
    hide IsSymbol;
  }

  lemma CodeIsTrimmed(url: bool, t: string)
    requires AllCode(url, t)
    ensures TrimSpace(t) == t
  {
    if t != "" {
      assert IsCode(url, t[0]) && IsCode(url, t[|t| - 1]);
      GraphIsTrimmed(t);
    }
  }

  /** Each variant decodes what it encodes. */
  lemma DecodeEncode(e: Encoding, s: string)
    requires IsBytes(s)
    ensures Decode(e, Encode(e, s)) == Some(s)
  {
    EncodeIsCode(e, s);
    StripKeepsCode(e.url, Encode(e, s));
    QuantaOfEncode(e, s);
  }

  // ---------- the order of the variants does not matter ----------

  lemma SameValue(u: bool, w: bool, c: char)
    requires IsSymbol(u, c) && IsSymbol(w, c)
    ensures Value(u, c) == Value(w, c)
  {
  }

  /** Two variants that both accept a text decode it to the same bytes. */
  lemma {:induction false} QuantaAgree(d: Encoding, e: Encoding, t: string)
    requires Quanta(d, t).Some? && Quanta(e, t).Some?
    ensures Quanta(d, t) == Quanta(e, t)
  {
    NotSymbol(d.url);
    NotSymbol(e.url);
    forall c | IsSymbol(d.url, c) && IsSymbol(e.url, c)
      ensures Value(d.url, c) == Value(e.url, c)
    {
      SameValue(d.url, e.url, c);
    }
    hide Value, Byte0, Byte1, Byte2;
    if |t| >= 4 && IsSymbol(d.url, t[0]) && IsSymbol(d.url, t[1]) && IsSymbol(d.url, t[2]) && IsSymbol(d.url, t[3]) {
      QuantaAgree(d, e, t[4..]);
    }
  }

  lemma VariantsAgree(d: Encoding, e: Encoding, s: string)
    requires Decode(d, s).Some? && Decode(e, s).Some?
    ensures Decode(d, s) == Decode(e, s)
  {
    QuantaAgree(d, e, StripNewlines(s));
  }

  lemma {:induction false} FirstDecodedIsAny(variants: seq<Encoding>, s: string, e: Encoding)
    requires e in variants && Decode(e, s).Some?
    ensures FirstDecoded(variants, s) == Decode(e, s)
  {
    if Decode(variants[0], s).Some? {
      VariantsAgree(variants[0], e, s);
    } else {
      FirstDecodedIsAny(variants[1..], s, e);
    }
    hide Decode;
  }

  lemma {:induction false} FirstDecodedIsSome(variants: seq<Encoding>, s: string)
    requires FirstDecoded(variants, s).Some?
    ensures exists e :: e in variants && Decode(e, s) == FirstDecoded(variants, s)
  {
    hide Decode;
    if Decode(variants[0], s).Some? {
      assert variants[0] in variants;
    } else {
      FirstDecodedIsSome(variants[1..], s);
      var e :| e in variants[1..] && Decode(e, s) == FirstDecoded(variants[1..], s);
      assert e in variants;
    }
  }

  lemma AllVariants(e: Encoding)
    ensures e in VARIANTS
  {
    assert e == VARIANTS[0] || e == VARIANTS[1] || e == VARIANTS[2] || e == VARIANTS[3];
  }

  /** b64decode gives x exactly when some variant does, whichever succeeds first. */
  lemma B64IsAnyVariant(s: string, x: string)
    ensures B64(s) == Some(x) <==> exists e: Encoding :: Decode(e, TrimSpace(s)) == Some(x)
  {
    hide Decode, TrimSpace;
    if B64(s) == Some(x) { FirstDecodedIsSome(VARIANTS, TrimSpace(s)); }
    if e: Encoding :| Decode(e, TrimSpace(s)) == Some(x) {
      AllVariants(e);
      FirstDecodedIsAny(VARIANTS, TrimSpace(s), e);
    }
  }

  /** b64decode is exact on every encoding of every byte string, padded or not, standard or URL-safe. */
  lemma B64OfEncode(e: Encoding, s: string)
    requires IsBytes(s)
    ensures B64(Encode(e, s)) == Some(s)
  {
    EncodeIsCode(e, s);
    CodeIsTrimmed(e.url, Encode(e, s));
    DecodeEncode(e, s);
    hide Decode, Encode, TrimSpace;
    B64IsAnyVariant(Encode(e, s), s);
  }

  /** It stays exact when the text is wrapped over lines and surrounded by white space. */
  lemma B64OfWrapped(e: Encoding, s: string, text: string)
    requires IsBytes(s) && StripNewlines(TrimSpace(text)) == Encode(e, s)
    ensures B64(text) == Some(s)
  {
    QuantaOfEncode(e, s);
    assert Decode(e, TrimSpace(text)) == Some(s);
    hide Decode, Encode, TrimSpace, StripNewlines, Quanta;
    B64IsAnyVariant(text, s);
  }
}
