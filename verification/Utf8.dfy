/** UTF-8 (RFC 3629) on byte strings. */
module Utf8 {
  import opened Wrappers

  predicate IsScalar(r: int) { 0 <= r < 0xD800 || 0xE000 <= r <= 0x10FFFF }

  function B(n: int): char { (n % 256) as char }

  /** utf8.AppendRune; what is no scalar value is written as U+FFFD. */
  function EncodeRune(r: int): string
  {
    if !IsScalar(r) then [B(0xEF), B(0xBF), B(0xBD)]
    else if r < 0x80 then [B(r)]
    else if r < 0x800 then [B(0xC0 + r / 64), B(0x80 + r % 64)]
    else if r < 0x10000 then [B(0xE0 + r / 4096), B(0x80 + r / 64 % 64), B(0x80 + r % 64)]
    else [B(0xF0 + r / 262144), B(0x80 + r / 4096 % 64), B(0x80 + r / 64 % 64), B(0x80 + r % 64)]
  }

  datatype Rune = Rune(code: int, size: nat)

  predicate IsTail(c: char) { 0x80 <= c as int < 0xC0 }

  /** The scalar value that s starts with, in its shortest form. */
  function DecodeRune(s: string): (r: Option<Rune>)
    ensures r.Some? ==> 1 <= r.value.size <= |s| && r.value.size <= 4
  {
    if s == "" then None
    else
      var a := s[0] as int;
      if a < 0x80 then Some(Rune(a, 1))
      else if 0xC2 <= a < 0xE0 && |s| >= 2 && IsTail(s[1]) then Some(Rune((a - 0xC0) * 64 + (s[1] as int - 0x80), 2))
      else if 0xE0 <= a < 0xF0 && |s| >= 3 && IsTail(s[1]) && IsTail(s[2]) then
        var r := (a - 0xE0) * 4096 + (s[1] as int - 0x80) * 64 + (s[2] as int - 0x80);
        if r >= 0x800 && IsScalar(r) then Some(Rune(r, 3)) else None
      else if 0xF0 <= a < 0xF5 && |s| >= 4 && IsTail(s[1]) && IsTail(s[2]) && IsTail(s[3]) then
        var r := (a - 0xF0) * 262144 + (s[1] as int - 0x80) * 4096 + (s[2] as int - 0x80) * 64 + (s[3] as int - 0x80);
        if r >= 0x10000 && IsScalar(r) then Some(Rune(r, 4)) else None
      else None
  }

  lemma ByteIs(n: int)
    requires 0 <= n < 256
    ensures B(n) as int == n
  {
  }

  lemma Decode2(a: char, b: char, rest: string)
    requires 0xC2 <= a as int < 0xE0 && IsTail(b)
    ensures DecodeRune([a, b] + rest) == Some(Rune((a as int - 0xC0) * 64 + (b as int - 0x80), 2))
  {
    var s := [a, b] + rest;
    assert s[0] == a && s[1] == b;
  }

  lemma Decode3(a: char, b: char, c: char, rest: string)
    requires 0xE0 <= a as int < 0xF0 && IsTail(b) && IsTail(c)
    requires var r := (a as int - 0xE0) * 4096 + (b as int - 0x80) * 64 + (c as int - 0x80); r >= 0x800 && IsScalar(r)
    ensures DecodeRune([a, b, c] + rest) == Some(Rune((a as int - 0xE0) * 4096 + (b as int - 0x80) * 64
            + (c as int - 0x80), 3))
  {
    var s := [a, b, c] + rest;
    assert s[0] == a && s[1] == b && s[2] == c;
  }

  lemma Decode4(a: char, b: char, c: char, d: char, rest: string)
    requires 0xF0 <= a as int < 0xF5 && IsTail(b) && IsTail(c) && IsTail(d)
    requires var r := (a as int - 0xF0) * 262144 + (b as int - 0x80) * 4096 + (c as int - 0x80) * 64
            + (d as int - 0x80);
             r >= 0x10000 && IsScalar(r)
    ensures DecodeRune([a, b, c, d] + rest)
         == Some(Rune((a as int - 0xF0) * 262144 + (b as int - 0x80) * 4096 + (c as int - 0x80) * 64
             + (d as int - 0x80), 4))
  {
    var s := [a, b, c, d] + rest;
    assert s[0] == a && s[1] == b && s[2] == c && s[3] == d;
  }

  lemma Split2(r: int)
    requires 0x80 <= r < 0x800
    ensures r == r / 64 * 64 + r % 64 && 2 <= r / 64 < 32
  {
  }

  lemma Split3(r: int)
    requires 0x800 <= r < 0x10000
    ensures r == r / 4096 * 4096 + r / 64 % 64 * 64 + r % 64 && 0 <= r / 4096 < 16
  {
    assert r / 64 == r / 4096 * 64 + r / 64 % 64;
  }

  lemma Split4(r: int)
    requires 0x10000 <= r <= 0x10FFFF
    ensures r == r / 262144 * 262144 + r / 4096 % 64 * 4096 + r / 64 % 64 * 64 + r % 64 && 0 <= r / 262144 < 5
  {
    assert r / 64 == r / 4096 * 64 + r / 64 % 64;
    assert r / 4096 == r / 262144 * 64 + r / 4096 % 64;
  }

  /** A printed scalar value reads back, whatever follows it. */
  lemma DecodeEncode(r: int, rest: string)
    requires IsScalar(r)
    ensures DecodeRune(EncodeRune(r) + rest) == Some(Rune(r, |EncodeRune(r)|))
  {
    if r < 0x80 {
      ByteIs(r);
    } else if r < 0x800 {
      Encoded2(r, rest);
    } else if r < 0x10000 {
      Encoded3(r, rest);
    } else {
      Encoded4(r, rest);
    }
    hide B;
  }

  lemma Encoded2(r: int, rest: string)
    requires 0x80 <= r < 0x800
    ensures DecodeRune([B(0xC0 + r / 64), B(0x80 + r % 64)] + rest) == Some(Rune(r, 2))
  {
    hide B, DecodeRune;
    Split2(r);
    var x, y := r / 64, r % 64;
    ByteIs(0xC0 + x);
    ByteIs(0x80 + y);
    Decode2(B(0xC0 + x), B(0x80 + y), rest);
  }

  lemma Encoded3(r: int, rest: string)
    requires 0x800 <= r < 0x10000 && IsScalar(r)
    ensures DecodeRune([B(0xE0 + r / 4096), B(0x80 + r / 64 % 64), B(0x80 + r % 64)] + rest) == Some(Rune(r, 3))
  {
    hide B, DecodeRune;
    Split3(r);
    var x, y, z := r / 4096, r / 64 % 64, r % 64;
    ByteIs(0xE0 + x);
    ByteIs(0x80 + y);
    ByteIs(0x80 + z);
    Decode3(B(0xE0 + x), B(0x80 + y), B(0x80 + z), rest);
  }

  lemma Encoded4(r: int, rest: string)
    requires 0x10000 <= r <= 0x10FFFF
    ensures DecodeRune([B(0xF0 + r / 262144), B(0x80 + r / 4096 % 64), B(0x80 + r / 64 % 64), B(0x80 + r % 64)]
            + rest) == Some(Rune(r, 4))
  {
    hide B, DecodeRune;
    Split4(r);
    var w, x, y, z := r / 262144, r / 4096 % 64, r / 64 % 64, r % 64;
    ByteIs(0xF0 + w);
    ByteIs(0x80 + x);
    ByteIs(0x80 + y);
    ByteIs(0x80 + z);
    Decode4(B(0xF0 + w), B(0x80 + x), B(0x80 + y), B(0x80 + z), rest);
  }

  lemma High(n: int)
    requires 0x80 <= n < 256
    ensures 0x80 <= B(n) as int < 256
  {
  }

  /** Outside ASCII every byte is 0x80 or more. */
  lemma EncodedIsHigh(r: int)
    requires r >= 0x80
    ensures 2 <= |EncodeRune(r)| <= 4 && forall i :: 0 <= i < |EncodeRune(r)| ==> 0x80 <= EncodeRune(r)[i] as int < 256
  {
    hide B;
    if !IsScalar(r) {
      High(0xEF);
      High(0xBF);
      High(0xBD);
    } else if r < 0x800 {
      Split2(r);
      High(0xC0 + r / 64);
      High(0x80 + r % 64);
    } else if r < 0x10000 {
      Split3(r);
      High(0xE0 + r / 4096);
      High(0x80 + r / 64 % 64);
      High(0x80 + r % 64);
    } else {
      Split4(r);
      High(0xF0 + r / 262144);
      High(0x80 + r / 4096 % 64);
      High(0x80 + r / 64 % 64);
      High(0x80 + r % 64);
    }
  }

  /** The runes that a text starts with depend on their own bytes only. */
  lemma DecodePrefix(s: string, rest: string)
    requires DecodeRune(s).Some?
    ensures DecodeRune(s[..DecodeRune(s).value.size] + rest) == DecodeRune(s)
  {
    var n := DecodeRune(s).value.size;
    var t := s[..n] + rest;
    assert forall i :: 0 <= i < n ==> t[i] == s[i];
  }
}
