/**
  Percent-encoding of query components, section 2.1 of RFC 3986, and query strings, as net/url does
  them: a space is '+', upper-case hex digits, keys in byte order.
 */
module Percent {
  import opened Wrappers
  import opened Text

  // ---------- escaping ----------

  predicate IsUnreserved(c: char)
  {
    IsLetter(c) || '0' <= c <= '9' || c == '-' || c == '_' || c == '.' || c == '~'
  }

  function Hex(v: int): char
  {
    var n := v % 16;
    if n < 10 then '0' + n as char else 'A' + (n - 10) as char
  }

  function Unhex(c: char): (v: int)
    ensures -1 <= v < 16
  {
    if '0' <= c <= '9' then (c - '0') as int
    else if 'A' <= c <= 'F' then (c - 'A') as int + 10
    else if 'a' <= c <= 'f' then (c - 'a') as int + 10
    else -1
  }

  /** One byte, with a space written as `space`. */
  function EscapeChar(c: char, space: string): string
  {
    if IsUnreserved(c) then [c]
    else if c == ' ' then space
    else ['%', Hex(c as int / 16), Hex(c as int)]
  }

  function EscapeWith(s: string, space: string): string
  {
    if s == "" then "" else EscapeChar(s[0], space) + EscapeWith(s[1..], space)
  }

  function QueryEscape(s: string): string { EscapeWith(s, "+") }

  /** None is net/url's EscapeError. */
  function QueryUnescape(s: string): Option<string>
  {
    if s == "" then Some("")
    else if s[0] == '%' then
      if |s| < 3 || Unhex(s[1]) < 0 || Unhex(s[2]) < 0 then None
      else
        var rest := QueryUnescape(s[3..]);
        if rest.None? then None else Some([(Unhex(s[1]) * 16 + Unhex(s[2])) as char] + rest.value)
    else
      var rest := QueryUnescape(s[1..]);
      if rest.None? then None else Some([if s[0] == '+' then ' ' else s[0]] + rest.value)
  }

  /** Characters that escaping can write. */
  predicate IsEscapedChar(c: char) { IsUnreserved(c) || c == '%' || c == '+' }

  predicate IsEscaped(s: string) { forall i :: 0 <= i < |s| ==> IsEscapedChar(s[i]) }

  lemma HexByte(c: char)
    requires c as int < 256
    ensures Unhex(Hex(c as int / 16)) * 16 + Unhex(Hex(c as int)) == c as int
    ensures Unhex(Hex(c as int / 16)) >= 0 && Unhex(Hex(c as int)) >= 0
    ensures Unhex('2') * 16 + Unhex('0') == ' ' as int
  {
  }

  lemma UnescapeHex(x: char, y: char, rest: string)
    requires Unhex(x) >= 0 && Unhex(y) >= 0
    ensures QueryUnescape(['%', x, y] + rest) ==
            var tail := QueryUnescape(rest); if tail.None? then None
                else Some([(Unhex(x) * 16 + Unhex(y)) as char] + tail.value)
  {
    hide Unhex;
    assert (['%', x, y] + rest)[3..] == rest;
  }

  lemma UnescapePlain(x: char, rest: string)
    requires x != '%'
    ensures QueryUnescape([x] + rest) ==
            var tail := QueryUnescape(rest); if tail.None? then None
                else Some([if x == '+' then ' ' else x] + tail.value)
  {
    hide Unhex;
    assert ([x] + rest)[1..] == rest;
  }

  lemma UnescapeChar(c: char, space: string, rest: string)
    requires c as int < 256 && (space == "+" || space == "%20")
    ensures QueryUnescape(EscapeChar(c, space) + rest) ==
            var tail := QueryUnescape(rest); if tail.None? then None else Some([c] + tail.value)
  {
    var t := EscapeChar(c, space);
    HexByte(c);
    if |t| == 1 {
      assert t != "%";
      UnescapePlain(t[0], rest);
      assert t == [t[0]];
    } else {
      UnescapeHex(t[1], t[2], rest);
      assert t == ['%', t[1], t[2]];
    }
    hide QueryUnescape, Hex, Unhex;
  }

  /** Unescaping undoes escaping, on every byte string. */
  lemma {:induction false} UnescapeEscape(s: string, space: string)
    requires IsBytes(s) && (space == "+" || space == "%20")
    ensures QueryUnescape(EscapeWith(s, space)) == Some(s)
  {
    if s != "" {
      UnescapeEscape(s[1..], space);
      UnescapeChar(s[0], space, EscapeWith(s[1..], space));
      assert [s[0]] + s[1..] == s;
      hide QueryUnescape, EscapeChar;
    }
  }

  lemma {:induction false} EscapedChars(s: string, space: string)
    requires space == "+" || space == "%20"
    ensures IsEscaped(EscapeWith(s, space)) && (s != "" ==> EscapeWith(s, space) != "")
  {
    if s != "" {
      EscapedChars(s[1..], space);
      EscapeCharChars(s[0], space);
      hide EscapeChar;
    }
  }

  lemma EscapeCharChars(c: char, space: string)
    requires space == "+" || space == "%20"
    ensures IsEscaped(EscapeChar(c, space)) && EscapeChar(c, space) != ""
  {
  }

  lemma {:induction false} ReplaceConcat(a: string, b: string, c: char, sub: string)
    ensures ReplaceChar(a + b, c, sub) == ReplaceChar(a, c, sub) + ReplaceChar(b, c, sub)
  {
    if a == "" {
      assert a + b == b;
      assert ReplaceChar(a, c, sub) == "";
    } else {
      hide ReplaceChar;
      ReplaceConcat(a[1..], b, c, sub);
      assert (a + b)[1..] == a[1..] + b;
      ReplaceStep(a, c, sub);
      ReplaceStep(a + b, c, sub);
      Regroup(if a[0] == c then sub else [a[0]], ReplaceChar(a[1..], c, sub), ReplaceChar(b, c, sub));
    }
  }

  lemma ReplaceStep(s: string, c: char, sub: string)
    requires s != ""
    ensures ReplaceChar(s, c, sub) == (if s[0] == c then sub else [s[0]]) + ReplaceChar(s[1..], c, sub)
  {
  }

  lemma {:induction false} ReplaceNone(s: string, c: char, sub: string)
    requires c !in s
    ensures ReplaceChar(s, c, sub) == s
  {
    if s != "" { ReplaceNone(s[1..], c, sub); }
  }

  /** Replacing every '+' of the escaped text by %20 is escaping a space as %20. */
  lemma {:induction false} PlusIsSpace(s: string)
    ensures ReplaceChar(QueryEscape(s), '+', "%20") == EscapeWith(s, "%20")
  {
    if s != "" {
      PlusIsSpace(s[1..]);
      ReplaceConcat(EscapeChar(s[0], "+"), EscapeWith(s[1..], "+"), '+', "%20");
      PlusIsSpaceChar(s[0]);
      hide ReplaceChar, EscapeChar;
    }
  }

  lemma PlusIsSpaceChar(c: char)
    ensures ReplaceChar(EscapeChar(c, "+"), '+', "%20") == EscapeChar(c, "%20")
  {
    if c == ' ' {
      assert "+"[1..] == "";
      assert ReplaceChar("+", '+', "%20") == "%20" + "";
    } else {
      assert '+' !in EscapeChar(c, "+");
      ReplaceNone(EscapeChar(c, "+"), '+', "%20");
    }
  }

  // ---------- query strings ----------

  datatype Pair = Pair(key: string, value: string)

  /** url.Values built with Set: one value a key, kept in the key order Encode writes. */
  type Query = seq<Pair>

  function Put(q: Query, key: string, value: string): Query
  {
    if q == [] || Less(key, q[0].key) then [Pair(key, value)] + q
    else if q[0].key == key then [Pair(key, value)] + q[1..]
    else [q[0]] + Put(q[1..], key, value)
  }

  function Segment(p: Pair): string { QueryEscape(p.key) + "=" + QueryEscape(p.value) }

  function EncodeQuery(q: Query): string
  {
    if |q| == 0 then "" else if |q| == 1 then Segment(q[0]) else Segment(q[0]) + "&" + EncodeQuery(q[1..])
  }

  /** One segment of a query string; a bad one is left out. */
  function ParseSegment(s: string): Query
  {
    if s == "" || ';' in s then []
    else
      var cut := Cut(s, '=');
      var key, value := QueryUnescape(cut.before), QueryUnescape(cut.after);
      if key.None? || value.None? then [] else [Pair(key.value, value.value)]
  }

  function ParseQuery(s: string): Query
    decreases |s|
  {
    if s == "" then []
    else
      var cut := Cut(s, '&');
      ParseSegment(cut.before) + (if cut.found then ParseQuery(cut.after) else [])
  }

  /** Values.Get: the first value of a key. */
  function Get(q: Query, key: string): string
  {
    if q == [] then "" else if q[0].key == key then q[0].value else Get(q[1..], key)
  }

  ghost predicate IsBytesQuery(q: Query)
  {
    forall i :: 0 <= i < |q| ==> IsBytes(q[i].key) && IsBytes(q[i].value)
  }

  lemma EscapedAvoids(s: string)
    requires IsEscaped(s)
    ensures '=' !in s && '&' !in s && ';' !in s && ',' !in s && '#' !in s && '@' !in s && '?' !in s && '\n' !in s
            && '/' !in s
  {
  }

  lemma SegmentParts(p: Pair)
    requires IsBytes(p.key) && IsBytes(p.value)
    ensures '&' !in Segment(p) && Segment(p) != "" && ParseSegment(Segment(p)) == [p]
  {
    var k, v := QueryEscape(p.key), QueryEscape(p.value);
    EscapedChars(p.key, "+");
    EscapedChars(p.value, "+");
    EscapedAvoids(k);
    EscapedAvoids(v);
    CutAt(k, '=', v);
    assert k + ['='] + v == Segment(p);
    UnescapeEscape(p.key, "+");
    UnescapeEscape(p.value, "+");
    hide Cut, EscapeWith, QueryUnescape, IsEscaped;
  }

  /** Parsing undoes encoding: the same keys and values, in the same order. */
  lemma {:induction false} ParseEncoded(q: Query)
    requires IsBytesQuery(q)
    ensures ParseQuery(EncodeQuery(q)) == q
  {
    if q != [] {
      var seg := Segment(q[0]);
      SegmentParts(q[0]);
      hide Segment, ParseSegment;
      if |q| == 1 {
        assert Cut(seg, '&') == CutResult(seg, "", false);
        assert [q[0]] == q;
      } else {
        ParseEncoded(q[1..]);
        var rest := EncodeQuery(q[1..]);
        CutAt(seg, '&', rest);
        assert seg + ['&'] + rest == EncodeQuery(q);
        hide Cut;
        assert [q[0]] + q[1..] == q;
      }
    }
  }

  /** Segments, their '=' and the '&' between them are all an encoded query holds. */
  lemma {:induction false} QueryChars(q: Query)
    ensures forall i :: 0 <= i < |EncodeQuery(q)| ==>
            IsEscapedChar(EncodeQuery(q)[i]) || EncodeQuery(q)[i] == '=' || EncodeQuery(q)[i] == '&'
    ensures q != [] ==> EncodeQuery(q) != ""
  {
    hide EscapeWith, IsEscapedChar;
    if q != [] {
      EscapedChars(q[0].key, "+");
      EscapedChars(q[0].value, "+");
      QueryChars(q[1..]);
    }
  }
}
