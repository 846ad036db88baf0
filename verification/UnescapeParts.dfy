/**
  What unescapeUnicode makes of a text (internal/generator/clash.go), part by part, and the bits of UTF-8
  (section 3 of RFC 3629).
 */
module UnescapeParts {
  import opened Wrappers
  import opened Text
  import opened Percent
  import opened LinkCodes
  import opened Utf8
  import opened Unescape

  // ---------- numbers and bytes ----------

  /** Hex digits are read first digit first, in either case. */
  lemma HexByDigit(s: string, v: int)
    requires AllHex(s) && 0 <= v < 16
    ensures AllHex(s + [HEX[v]]) && HexValue(s + [HEX[v]]) == HexValue(s) * 16 + v
    ensures AllHex(s + [LowerChar(HEX[v])]) && HexValue(s + [LowerChar(HEX[v])]) == HexValue(s) * 16 + v
    ensures HexValue("") == 0
  {
    HexDigits(v);
    hide Unhex, LowerChar;
    assert (s + [HEX[v]])[..|s|] == s && (s + [LowerChar(HEX[v])])[..|s|] == s;
  }

  /** Where the bits of a scalar value go: the first bits into the first byte, six into each byte that follows. */
  lemma RuneBits(a: int, x: int)
    ensures 0 <= a < 0x80 ==> EncodeRune(a) == [a as char]
    ensures 2 <= a < 32 && 0 <= x < 64 ==> EncodeRune(a * 64 + x) == [(0xC0 + a) as char, (0x80 + x) as char]
    ensures !IsScalar(a) ==> EncodeRune(a) == [0xEF as char, 0xBF as char, 0xBD as char]
  {
  }

  lemma SixBits(u: int, x: int)
    requires 0 <= x < 64
    ensures (u * 64 + x) / 64 == u && (u * 64 + x) % 64 == x
  {
  }

  lemma Twice(r: int)
    requires r >= 0
    ensures r / 4096 == r / 64 / 64
  {
  }

  lemma ThreeByteRune(a: int, x: int, y: int)
    requires 0 <= a < 16 && 0 <= x < 64 && 0 <= y < 64
    requires var r := (a * 64 + x) * 64 + y; r >= 0x800 && IsScalar(r)
    ensures EncodeRune((a * 64 + x) * 64 + y) == [(0xE0 + a) as char, (0x80 + x) as char, (0x80 + y) as char]
  {
    var u := a * 64 + x;
    SixBits(u, y);
    SixBits(a, x);
    Twice(u * 64 + y);
  }

  lemma FourByteRune(a: int, x: int, y: int, z: int)
    requires 0 <= a < 8 && 0 <= x < 64 && 0 <= y < 64 && 0 <= z < 64
    requires 0x10000 <= ((a * 64 + x) * 64 + y) * 64 + z <= 0x10FFFF
    ensures EncodeRune(((a * 64 + x) * 64 + y) * 64 + z) ==
            [(0xF0 + a) as char, (0x80 + x) as char, (0x80 + y) as char, (0x80 + z) as char]
  {
    var r := ((a * 64 + x) * 64 + y) * 64 + z;
    ThreeSixes(a, x, y, z);
    hide IsScalar;
    FourBytesOf(r, a, x, y, z);
  }

  lemma ThreeSixes(a: int, x: int, y: int, z: int)
    requires 0 <= a && 0 <= x < 64 && 0 <= y < 64 && 0 <= z < 64
    ensures var r := ((a * 64 + x) * 64 + y) * 64 + z;
            r / 262144 == a && r / 4096 % 64 == x && r / 64 % 64 == y && r % 64 == z
  {
    var u := a * 64 + x;
    var v := u * 64 + y;
    var r := v * 64 + z;
    SixBits(v, z);
    SixBits(u, y);
    SixBits(a, x);
    Thrice(r);
  }

  lemma Thrice(r: int)
    requires r >= 0
    ensures r / 4096 == r / 64 / 64 && r / 262144 == r / 64 / 64 / 64
  {
  }

  lemma FourBytesOf(r: int, a: int, x: int, y: int, z: int)
    requires 0x10000 <= r <= 0x10FFFF && r / 262144 == a && r / 4096 % 64 == x && r / 64 % 64 == y && r % 64 == z
    requires 0 <= a < 8 && 0 <= x < 64 && 0 <= y < 64 && 0 <= z < 64
    ensures EncodeRune(r) == [(0xF0 + a) as char, (0x80 + x) as char, (0x80 + y) as char, (0x80 + z) as char]
  {
    ByteIs(0xF0 + a);
    ByteIs(0x80 + x);
    ByteIs(0x80 + y);
    ByteIs(0x80 + z);
    hide B;
    assert EncodeRune(r) == [B(0xF0 + a), B(0x80 + x), B(0x80 + y), B(0x80 + z)];
    hide EncodeRune;
  }

  // ---------- texts in parts ----------

  /** Escapes are four digits after u and eight after U; other escapes are named by one character. */
  datatype Part = Byte(c: char) | Backslashes | Named(c: char) | Short(hex: string) | Long(hex: string)

  predicate IsPart(p: Part)
  {
    match p
    case Byte(c) => c != '\\'
    case Backslashes => true
    case Named(c) => c !in {'\\', 'u', 'U'}
    case Short(hex) => |hex| == 4 && AllHex(hex)
    case Long(hex) => |hex| == 8 && AllHex(hex) && HexValue(hex) < 0x8000_0000
  }

  function Written(p: Part): string
  {
    match p
    case Byte(c) => [c]
    case Backslashes => "\\\\"
    case Named(c) => "\\" + [c]
    case Short(hex) => "\\u" + hex
    case Long(hex) => "\\U" + hex
  }

  /** An escape outside ASCII becomes its character, everything else stays. */
  function Becomes(p: Part): string
    requires IsPart(p)
  {
    match p
    case Short(hex) => if HexValue(hex) >= 0x80 then EncodeRune(HexValue(hex)) else Written(p)
    case Long(hex) => if HexValue(hex) >= 0x80 then EncodeRune(HexValue(hex)) else Written(p)
    case _ => Written(p)
  }

  ghost predicate AreParts(ps: seq<Part>) { forall i :: 0 <= i < |ps| ==> IsPart(ps[i]) }

  function WrittenAll(ps: seq<Part>): string { if ps == [] then "" else Written(ps[0]) + WrittenAll(ps[1..]) }

  function BecomesAll(ps: seq<Part>): string
    requires AreParts(ps)
  {
    if ps == [] then "" else Becomes(ps[0]) + BecomesAll(ps[1..])
  }

  /** Every text of such parts becomes what its parts become. */
  lemma {:induction false} PartsBecome(ps: seq<Part>)
    requires AreParts(ps)
    ensures Unescaped(WrittenAll(ps)) == BecomesAll(ps)
  {
    hide Unescaped, Written, Becomes, IsPart;
    if ps == [] {
      UnescapedNothing();
    } else {
      PartsBecome(ps[1..]);
      PartBecomes(ps[0], WrittenAll(ps[1..]));
    }
  }

  lemma PartBecomes(p: Part, rest: string)
    requires IsPart(p)
    ensures Unescaped(Written(p) + rest) == Becomes(p) + Unescaped(rest)
  {
    hide Unescaped, AllHex, HexValue, EncodeRune;
    match p {
      case Byte(c) => PassThrough([c], rest);
      case Backslashes =>
        UnescapedStep("\\\\" + rest);
        assert ("\\\\" + rest)[2..] == rest;
      case Named(c) => NamedStays(c, rest);
      case Short(hex) =>
        FourDigits(hex);
        EscapeBecomes('u', hex, rest);
        assert "\\" + ['u'] == "\\u";
      case Long(hex) =>
        EscapeBecomes('U', hex, rest);
        assert "\\" + ['U'] == "\\U";
    }
  }

  lemma FourDigits(hex: string)
    requires |hex| == 4 && AllHex(hex)
    ensures HexValue(hex) < 0x10000
  {
    LastDigit(hex);
    LastDigit(hex[..3]);
    LastDigit(hex[..3][..2]);
    LastDigit(hex[..3][..2][..1]);
    assert HexValue("") == 0;
    hide HexValue, AllHex;
  }

  lemma LastDigit(s: string)
    requires s != "" && AllHex(s)
    ensures AllHex(s[..|s| - 1]) && HexValue(s) <= HexValue(s[..|s| - 1]) * 16 + 15
  {
    hide Unhex;
  }

  lemma NamedStays(c: char, rest: string)
    requires c !in {'\\', 'u', 'U'}
    ensures Unescaped("\\" + [c] + rest) == "\\" + [c] + Unescaped(rest)
  {
    hide Unescaped;
    var s := "\\" + [c] + rest;
    UnescapedStep(s);
    assert StepOf(s) == Step("\\", 1, false);
    assert s[1..] == [c] + rest;
    PassThrough([c], rest);
    Regroup("\\", [c], Unescaped(rest));
  }

  lemma EscapeBecomes(u: char, hex: string, rest: string)
    requires (u == 'u' && |hex| == 4) || (u == 'U' && |hex| == 8)
    requires AllHex(hex) && HexValue(hex) < 0x8000_0000
    ensures Unescaped("\\" + [u] + hex + rest) ==
            (if HexValue(hex) >= 0x80 then EncodeRune(HexValue(hex)) else "\\" + [u] + hex) + Unescaped(rest)
  {
    hide Unescaped, EncodeRune, ParseInt;
    var s := "\\" + [u] + hex + rest;
    UnescapedStep(s);
    HexParses(hex);
    assert s[2..2 + |hex|] == hex;
    assert s[0] == '\\' && s[1] == u;
    if HexValue(hex) >= 0x80 {
      assert Escape(s, |hex|) == Some(HexValue(hex));
      assert s[2 + |hex|..] == rest;
    } else {
      assert StepOf(s) == Step("\\", 1, false);
      HexIsPlain(u, hex);
      hide StepOf, AllHex, HexValue;
      assert s[1..] == [u] + hex + rest;
      PassThrough([u] + hex, rest);
      Regroup("\\", [u] + hex, Unescaped(rest));
      assert "\\" + ([u] + hex) == "\\" + [u] + hex;
    }
  }

  lemma HexIsPlain(u: char, hex: string)
    requires u != '\\' && AllHex(hex)
    ensures '\\' !in [u] + hex
  {
    forall i | 0 <= i < |hex|
      ensures hex[i] != '\\'
    {
      assert Unhex(hex[i]) >= 0;
    }
  }
}
