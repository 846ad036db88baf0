/**
  The codes of share links in the open: which bits base64 symbols stand for, how bytes are escaped, and how a query
  string is cut (internal/parser/util.go, encoding/base64, net/url).
 */
module LinkCodes {
  import opened Wrappers
  import opened Text
  import opened Base64
  import opened Percent

  // ---------- base64 ----------

  const UPPER := "ABCDEFGHIJKLMNOPQRSTUVWXYZ"
  const LOWER := "abcdefghijklmnopqrstuvwxyz"
  const DIGITS := "0123456789"

  /** Tables 1 and 2 of RFC 4648. */
  function Alphabet(url: bool): string { UPPER + LOWER + DIGITS + (if url then "-_" else "+/") }

  lemma Alphabets(url: bool, v: int)
    requires 0 <= v < 64
    ensures |Alphabet(url)| == 64 && Symbol(url, v) == Alphabet(url)[v]
  {
    if v < 26 {
      assert Alphabet(url)[v] == UPPER[v];
    } else if v < 52 {
      assert Alphabet(url)[v] == LOWER[v - 26];
    } else if v < 62 {
      assert Alphabet(url)[v] == DIGITS[v - 52];
    }
  }

  function Padding(e: Encoding, n: nat): string { if !e.padded then "" else if n == 1 then "=" else "==" }

  predicate IsSix(v: int) { 0 <= v < 64 }

  /** Three bytes are four symbols of six bits each, first bits first. */
  lemma ThreeBytes(e: Encoding, a: char, b: char, c: char)
    requires a as int < 256 && b as int < 256 && c as int < 256
    ensures exists v, w, x, y | IsSix(v) && IsSix(w) && IsSix(x) && IsSix(y) ::
              && ((v * 64 + w) * 64 + x) * 64 + y == (a as int * 256 + b as int) * 256 + c as int
              && Encode(e, [a, b, c]) == [Symbol(e.url, v), Symbol(e.url, w), Symbol(e.url, x), Symbol(e.url, y)]
  {
    var i, j, k := a as int, b as int, c as int;
    var v, w, x, y := i / 4, i % 4 * 16 + j / 16, j % 16 * 4 + k / 64, k % 64;
    SymbolMod(e.url, k);
    assert [a, b, c][3..] == "" && Encode(e, "") == "";
    hide Symbol;
    assert IsSix(v) && IsSix(w) && IsSix(x) && IsSix(y);
    assert ((v * 64 + w) * 64 + x) * 64 + y == (i * 256 + j) * 256 + k;
    assert Encode(e, [a, b, c]) == [Symbol(e.url, v), Symbol(e.url, w), Symbol(e.url, x), Symbol(e.url, y)];
  }

  /** Two bytes left over are three symbols, the last filled up with zero bits, and padded when the variant pads. */
  lemma TwoBytes(e: Encoding, a: char, b: char)
    requires a as int < 256 && b as int < 256
    ensures exists v, w, x | IsSix(v) && IsSix(w) && IsSix(x) ::
              && (v * 64 + w) * 64 + x == (a as int * 256 + b as int) * 4
              && Encode(e, [a, b]) == [Symbol(e.url, v), Symbol(e.url, w), Symbol(e.url, x)] + Padding(e, 1)
  {
    hide Symbol;
    var i, j := a as int, b as int;
    var v, w, x := i / 4, i % 4 * 16 + j / 16, j % 16 * 4;
    assert IsSix(v) && IsSix(w) && IsSix(x);
    assert (v * 64 + w) * 64 + x == (i * 256 + j) * 4;
    assert Encode(e, [a, b]) == [Symbol(e.url, v), Symbol(e.url, w), Symbol(e.url, x)] + Padding(e, 1);
  }

  lemma OneByte(e: Encoding, a: char)
    requires a as int < 256
    ensures exists v, w | IsSix(v) && IsSix(w) ::
              v * 64 + w == a as int * 16 && Encode(e, [a]) == [Symbol(e.url, v), Symbol(e.url, w)] + Padding(e, 2)
  {
    hide Symbol;
    var v, w := a as int / 4, a as int % 4 * 16;
    assert IsSix(v) && IsSix(w);
    assert v * 64 + w == a as int * 16;
    assert Encode(e, [a]) == [Symbol(e.url, v), Symbol(e.url, w)] + Padding(e, 2);
  }

  /** Longer texts are encoded three bytes at a time. */
  lemma EncodedByThree(e: Encoding, s: string)
    requires |s| > 3
    ensures Encode(e, s) == Encode(e, s[..3]) + Encode(e, s[3..])
  {
    hide Symbol;
    assert s[..3][3..] == "" && Encode(e, "") == "";
  }

  // ---------- percent-encoding ----------

  const HEX := "0123456789ABCDEF"

  /** Letters, digits and four marks stay, a space is written as asked, any other byte as two hex digits. */
  lemma EscapedByte(c: char, space: string)
    requires c as int < 256
    ensures EscapeWith([c], space) ==
            if 'a' <= c <= 'z' || 'A' <= c <= 'Z' || '0' <= c <= '9' || c in {'-', '_', '.', '~'} then [c]
            else if c == ' ' then space else ['%', HEX[c as int / 16], HEX[c as int % 16]]
  {
    HexDigits(c as int / 16);
    HexDigits(c as int % 16);
    assert [c][1..] == "" && EscapeWith("", space) == "";
    assert Hex(c as int) == Hex(c as int % 16);
    hide Hex;
  }

  lemma HexDigits(v: int)
    requires 0 <= v < 16
    ensures |HEX| == 16 && Hex(v) == HEX[v] && Unhex(HEX[v]) == v && Unhex(LowerChar(HEX[v])) == v
  {
  }

  lemma {:induction false} EscapedByOne(s: string, t: string, space: string)
    ensures EscapeWith(s + t, space) == EscapeWith(s, space) + EscapeWith(t, space)
  {
    hide EscapeChar;
    if s == "" {
      assert s + t == t && EscapeWith(s, space) == "";
    } else {
      EscapedByOne(s[1..], t, space);
      assert (s + t)[1..] == s[1..] + t && (s + t)[0] == s[0];
      assert EscapeWith(s, space) == EscapeChar(s[0], space) + EscapeWith(s[1..], space);
    }
  }

  /** What an escaped text is made of: characters as they are, spaces as '+', and bytes in hex digits of any case. */
  datatype Piece = Literal(c: char) | Plus | Coded(hi: nat, lo: nat, upper: bool)

  predicate IsPiece(p: Piece)
  {
    match p
    case Literal(c) => c != '%' && c != '+'
    case Plus => true
    case Coded(hi, lo, _) => hi < 16 && lo < 16
  }

  function DigitOf(v: nat, upper: bool): char
    requires v < 16
  {
    if upper then HEX[v] else LowerChar(HEX[v])
  }

  function Spelled(p: Piece): string
    requires IsPiece(p)
  {
    match p
    case Literal(c) => [c]
    case Plus => "+"
    case Coded(hi, lo, upper) => ['%', DigitOf(hi, upper), DigitOf(lo, upper)]
  }

  function Meant(p: Piece): char
    requires IsPiece(p)
  {
    match p
    case Literal(c) => c
    case Plus => ' '
    case Coded(hi, lo, _) => (hi * 16 + lo) as char
  }

  ghost predicate ArePieces(ps: seq<Piece>) { forall i :: 0 <= i < |ps| ==> IsPiece(ps[i]) }

  function SpelledAll(ps: seq<Piece>): string
    requires ArePieces(ps)
  {
    if ps == [] then "" else Spelled(ps[0]) + SpelledAll(ps[1..])
  }

  function MeantAll(ps: seq<Piece>): string
    requires ArePieces(ps)
  {
    if ps == [] then "" else [Meant(ps[0])] + MeantAll(ps[1..])
  }

  /** Unescaping gives what the pieces of a text mean. */
  lemma {:induction false} UnescapesPieces(ps: seq<Piece>)
    requires ArePieces(ps)
    ensures QueryUnescape(SpelledAll(ps)) == Some(MeantAll(ps))
  {
    if ps != [] {
      UnescapesPieces(ps[1..]);
      var rest := SpelledAll(ps[1..]);
      match ps[0] {
        case Literal(c) => UnescapePlain(c, rest);
        case Plus => UnescapePlain('+', rest);
        case Coded(hi, lo, upper) =>
          HexDigits(hi);
          HexDigits(lo);
          UnescapeHex(DigitOf(hi, upper), DigitOf(lo, upper), rest);
      }
      hide QueryUnescape, Unhex, LowerChar;
    }
  }

  /** A query string is read pair by pair: up to the next '&', split at the first '='. */
  lemma QueryByPair(key: string, value: string, rest: string)
    requires key != "" && '=' !in key && '&' !in key && ';' !in key && '&' !in value && ';' !in value
    requires QueryUnescape(key).Some? && QueryUnescape(value).Some?
    ensures var p := Pair(QueryUnescape(key).value, QueryUnescape(value).value);
            && ParseQuery(key + "=" + value) == [p]
            && ParseQuery(key + "=" + value + "&" + rest) == [p] + ParseQuery(rest)
  {
    hide QueryUnescape;
    var seg := key + "=" + value;
    assert seg == key + ['='] + value;
    CutAt(key, '=', value);
    CutAt(seg, '&', rest);
    assert seg + ['&'] + rest == seg + "&" + rest;
    assert Cut(seg, '&') == CutResult(seg, "", false);
    hide Cut;
    assert ParseSegment(seg) == [Pair(QueryUnescape(key).value, QueryUnescape(value).value)];
  }
}
