/** Masking secrets in URLs for display (internal/config/redact.go). */
module Redact {
  import opened Wrappers
  import opened Text

  const MASK := "***"

  // ---------- the code ----------

  function MaskPart(p: string): string
  {
    var eq := Index(p, '=');
    if eq >= 0 then p[..eq + 1] + MASK else p
  }

  function MaskParts(parts: seq<string>): (r: seq<string>)
    ensures |r| == |parts|
  {
    seq(|parts|, i requires 0 <= i < |parts| => MaskPart(parts[i]))
  }

  function MaskedQuery(raw: string): string { if raw == "" then "" else Join(MaskParts(Split(raw, '&')), "&") }

  method MaskQuery(raw: string) returns (masked: string)
    ensures masked == MaskedQuery(raw)
  {
    hide Split, Join, Index;
    if raw == "" {
      return "";
    }
    var parts := Split(raw, '&');
    ghost var was := parts;
    for i := 0 to |parts|
      invariant |parts| == |was|
      invariant forall k :: 0 <= k < |was| ==> parts[k] == if k < i then MaskPart(was[k]) else was[k]
    {
      var p := parts[i];
      if p == "" {
        continue;
      }
      var eq := Index(p, '=');
      if eq >= 0 {
        parts := parts[i := p[..eq + 1] + "***"];
      }
    }
    assert parts == MaskParts(was);
    masked := Join(parts, "&");
  }

  predicate EndsAuthority(c: char) { c == '/' || c == '?' || c == '#' }

  function AuthorityEnd(rest: string): (end: nat)
    ensures end <= |rest|
    ensures forall i :: 0 <= i < end ==> !EndsAuthority(rest[i])
    ensures end < |rest| ==> EndsAuthority(rest[end])
  {
    if rest == "" || EndsAuthority(rest[0]) then 0
    else
      var end := AuthorityEnd(rest[1..]);
      assert forall i :: 1 <= i < end + 1 ==> rest[i] == rest[1..][i - 1];
      end + 1
  }

  lemma SeparatorInside(base: string)
    ensures IndexOf(base, "://") >= 0 ==> IndexOf(base, "://") + 3 <= |base|
  {
  }

  function MaskedUser(base: string): string
  {
    var sep := IndexOf(base, "://");
    SeparatorInside(base);
    if sep < 0 then base
    else
      var rest := base[sep + 3..];
      var at := LastIndex(rest[..AuthorityEnd(rest)], '@');
      if at < 0 then base else base[..sep + 3] + MASK + rest[at..]
  }

  method RedactUserinfo(base: string) returns (masked: string)
    ensures masked == MaskedUser(base)
  {
    hide IndexOf, LastIndex;
    var sep := IndexOf(base, "://");
    SeparatorInside(base);
    if sep < 0 {
      return base;
    }
    var rest := base[sep + 3..];
    var end := |rest|;
    for i := 0 to |rest|
      invariant end == |rest| && forall k :: 0 <= k < i ==> !EndsAuthority(rest[k])
    {
      if rest[i] == '/' || rest[i] == '?' || rest[i] == '#' {
        end := i;
        break;
      }
    }
    assert end == AuthorityEnd(rest);
    var auth := rest[..end];
    var at := LastIndex(auth, '@');
    if at < 0 {
      return base;
    }
    masked := base[..sep + 3] + "***" + rest[at..];
  }

  function MaskMiddle(s: string): string { if |s| <= 8 then MASK else s[..4] + MASK + s[|s| - 2..] }

  function Redacted(url: string): string
  {
    var raw := TrimSpace(url);
    var lower := ToLower(raw);
    if raw == "" then ""
    else if "vmess://" <= lower then "vmess://***"
    else if "ssr://" <= lower then "ssr://***"
    else if !Contains(raw, "://") then MaskMiddle(raw)
    else
      var cut := Cut(raw, '?');
      MaskedUser(cut.before) + if cut.after != "" then "?" + MaskedQuery(cut.after) else ""
  }

  method RedactURL(url: string) returns (r: string)
    ensures r == Redacted(url)
  {
    hide TrimSpace, Contains, Index, MaskedUser, MaskedQuery, MaskMiddle;
    var raw := TrimSpace(url);
    if raw == "" {
      return "";
    }
    var lower := ToLower(raw);
    if "vmess://" <= lower {
      return "vmess://***";
    }
    if "ssr://" <= lower {
      return "ssr://***";
    }
    if !Contains(raw, "://") {
      return MaskMiddle(raw);
    }
    var base, query := raw, "";
    var i := Index(raw, '?');
    if i >= 0 {
      base := raw[..i];
      query := raw[i + 1..];
    }
    base := RedactUserinfo(base);
    if query != "" {
      var masked := MaskQuery(query);
      return base + ("?" + masked);
    }
    assert base + "" == base;
    return base;
  }

  // ---------- the parts of a URL ----------

  datatype Part = Key(key: string) | Pair(key: string, value: string)

  /** scheme://user@tail?query, where tail runs from the host to the query. */
  datatype Url = Url(scheme: string, user: Option<string>, tail: string, query: Option<seq<Part>>)

  function PartText(p: Part): string { if p.Key? then p.key else p.key + "=" + p.value }

  function PartTexts(parts: seq<Part>): (r: seq<string>)
    ensures |r| == |parts|
  {
    seq(|parts|, i requires 0 <= i < |parts| => PartText(parts[i]))
  }

  function QueryText(parts: seq<Part>): string { Join(PartTexts(parts), "&") }

  function BaseText(u: Url): string
  {
    u.scheme + "://" + (if u.user.Some? then u.user.value + "@" else "") + u.tail
  }

  function UrlText(u: Url): string { BaseText(u) + if u.query.Some? then "?" + QueryText(u.query.value) else "" }

  ghost predicate IsPart(p: Part)
  {
    '&' !in p.key && '=' !in p.key && (p.Pair? ==> '&' !in p.value)
  }

  /** The parts stand where the grammar of RFC 3986 puts them. */
  ghost predicate WellFormed(u: Url)
  {
    && IndexOf(u.scheme + "://", "://") == |u.scheme| && '?' !in u.scheme
    && (u.user.Some? ==> forall i :: 0 <= i < |u.user.value| ==> !EndsAuthority(u.user.value[i]))
    && '?' !in u.tail && '@' !in u.tail[..AuthorityEnd(u.tail)]
    && (u.query.Some? ==> u.query.value != [] && forall i :: 0 <= i < |u.query.value| ==> IsPart(u.query.value[i]))
  }

  function MaskOf(p: Part): Part { if p.Key? then p else Pair(p.key, MASK) }

  function MasksOf(parts: seq<Part>): (r: seq<Part>)
    ensures |r| == |parts|
  {
    seq(|parts|, i requires 0 <= i < |parts| => MaskOf(parts[i]))
  }

  /** Everything but the secrets: userinfo and query values masked. */
  function Visible(u: Url): Url
  {
    u.(user := if u.user.Some? then Some(MASK) else None, query := if u.query.Some? then Some(MasksOf(u.query.value))
        else None)
  }

  /** What is shown: the visible URL, without an empty query. */
  function Shown(u: Url): string
  {
    var v := Visible(u);
    BaseText(v) + if u.query.Some? && QueryText(u.query.value) != "" then "?" + QueryText(v.query.value) else ""
  }

  // -- masking each piece --

  predicate SeparatorAt(s: string, i: nat)
    requires i + 3 <= |s|
  {
    s[i] == ':' && s[i + 1] == '/' && s[i + 2] == '/'
  }

  lemma SeparatorIs(s: string, i: nat)
    requires i + 3 <= |s|
    ensures "://" <= s[i..] <==> SeparatorAt(s, i)
  {
    assert s[i..][0] == s[i] && s[i..][1] == s[i + 1] && s[i..][2] == s[i + 2];
    assert "://" <= s[i..] <==> s[i..][..3] == "://";
  }

  lemma SeparatorStays(scheme: string, rest: string)
    requires IndexOf(scheme + "://", "://") == |scheme|
    ensures IndexOf(scheme + "://" + rest, "://") == |scheme|
  {
    var t, s := scheme + "://", scheme + "://" + rest;
    SeparatorIs(s, |scheme|);
    forall i | 0 <= i < |scheme|
      ensures !("://" <= s[i..])
    {
      SeparatorIs(s, i);
      SeparatorIs(t, i);
      assert t[i] == s[i] && t[i + 1] == s[i + 1] && t[i + 2] == s[i + 2];
    }
  }

  lemma AuthorityAfterUser(user: string, tail: string)
    requires forall i :: 0 <= i < |user| ==> !EndsAuthority(user[i])
    ensures AuthorityEnd(user + "@" + tail) == |user| + 1 + AuthorityEnd(tail)
  {
    var s := user + "@" + tail;
    var e := AuthorityEnd(tail);
    assert forall i :: |user| + 1 <= i < |s| ==> s[i] == tail[i - |user| - 1];
    assert forall i :: 0 <= i < |user| + 1 + e ==> !EndsAuthority(s[i]);
    if e < |tail| { assert EndsAuthority(s[|user| + 1 + e]); }
    hide AuthorityEnd;
  }

  lemma UserIsMasked(u: Url)
    requires WellFormed(u)
    ensures MaskedUser(BaseText(u)) == BaseText(Visible(u))
  {
    hide MaskedUser, IndexOf, AuthorityEnd, EndsAuthority;
    if u.user.Some? {
      NamedIsMasked(u.scheme, u.user.value, u.tail);
    } else {
      PlainIsKept(u.scheme, u.tail);
      assert u.scheme + "://" + "" + u.tail == u.scheme + "://" + u.tail;
    }
  }

  /** The text after the separator, and up to it. */
  lemma AfterSeparator(scheme: string, rest: string)
    ensures var base := scheme + "://" + rest; base[|scheme| + 3..] == rest && base[..|scheme| + 3] == scheme + "://"
  {
  }

  lemma PlainIsKept(scheme: string, tail: string)
    requires IndexOf(scheme + "://", "://") == |scheme| && '@' !in tail[..AuthorityEnd(tail)]
    ensures MaskedUser(scheme + "://" + tail) == scheme + "://" + tail
  {
    hide IndexOf, LastIndex, AuthorityEnd;
    SeparatorStays(scheme, tail);
    AfterSeparator(scheme, tail);
  }

  lemma NamedIsMasked(scheme: string, user: string, tail: string)
    requires IndexOf(scheme + "://", "://") == |scheme| && '@' !in tail[..AuthorityEnd(tail)]
    requires forall i :: 0 <= i < |user| ==> !EndsAuthority(user[i])
    ensures MaskedUser(scheme + "://" + (user + "@") + tail) == scheme + "://" + (MASK + "@") + tail
  {
    hide IndexOf, LastIndex, AuthorityEnd, EndsAuthority, MaskedUser;
    var rest := user + "@" + tail;
    Regroup(scheme + "://", user, tail);
    Regroup(scheme + "://", MASK, tail);
    SeparatorStays(scheme, rest);
    AfterSeparator(scheme, rest);
    LastAtUser(user, tail);
    MaskedUserAt(scheme + "://" + rest, |scheme|, rest, |user|);
  }

  lemma LastAtUser(user: string, tail: string)
    requires '@' !in tail[..AuthorityEnd(tail)] && forall i :: 0 <= i < |user| ==> !EndsAuthority(user[i])
    ensures var rest := user + "@" + tail;
            LastIndex(rest[..AuthorityEnd(rest)], '@') == |user| && rest[|user|..] == "@" + tail
  {
    hide LastIndex, AuthorityEnd, EndsAuthority;
    AuthorityAfterUser(user, tail);
    LastIndexAt(user, '@', tail[..AuthorityEnd(tail)]);
    UserSlices(user, tail, AuthorityEnd(tail));
  }

  lemma MaskedUserAt(base: string, sep: nat, rest: string, at: nat)
    requires sep + 3 <= |base| && IndexOf(base, "://") == sep && base[sep + 3..] == rest
    requires LastIndex(rest[..AuthorityEnd(rest)], '@') == at && at < |rest|
    ensures MaskedUser(base) == base[..sep + 3] + MASK + rest[at..]
  {
    hide IndexOf, LastIndex, AuthorityEnd;
  }

  lemma Regroup(front: string, user: string, tail: string)
    ensures front + (user + "@") + tail == front + (user + "@" + tail) == front + user + ("@" + tail)
  {
  }

  lemma UserSlices(user: string, tail: string, end: nat)
    requires end <= |tail|
    ensures var rest := user + "@" + tail;
            rest[..|user| + 1 + end] == user + ['@'] + tail[..end] && rest[|user|..] == "@" + tail
  {
  }

  lemma PartIsMasked(p: Part)
    requires IsPart(p)
    ensures MaskPart(PartText(p)) == PartText(MaskOf(p)) && '&' !in PartText(p)
  {
    if p.Pair? {
      IndexAt(p.key, '=', p.value);
      var t := p.key + ['='] + p.value;
      assert t == PartText(p) && t[..|p.key| + 1] == p.key + "=";
    }
    hide Index;
  }

  lemma QueryIsMasked(parts: seq<Part>)
    requires parts != [] && forall i :: 0 <= i < |parts| ==> IsPart(parts[i])
    ensures QueryText(parts) != "" ==> MaskedQuery(QueryText(parts)) == QueryText(MasksOf(parts))
  {
    forall i | 0 <= i < |parts|
      ensures MaskPart(PartText(parts[i])) == PartText(MaskOf(parts[i])) && '&' !in PartText(parts[i])
    {
      PartIsMasked(parts[i]);
    }
    hide MaskPart, PartText, MaskOf;
    SplitJoin(PartTexts(parts), '&');
    hide Split, Join;
    assert MaskParts(PartTexts(parts)) == PartTexts(MasksOf(parts));
  }

  // -- the whole URL --

  lemma OpaquePrefix(scheme: string, rest: string)
    requires IndexOf(scheme + "://", "://") == |scheme|
    ensures "vmess://" <= ToLower(scheme + "://" + rest) <==> ToLower(scheme) == "vmess"
    ensures "ssr://" <= ToLower(scheme + "://" + rest) <==> ToLower(scheme) == "ssr"
  {
    hide IndexOf, ToLower;
    SeparatorStays(scheme, rest);
    Names();
    PrefixIsScheme(scheme, rest, "vmess");
    PrefixIsScheme(scheme, rest, "ssr");
  }

  lemma Names()
    ensures "vmess" + "://" == "vmess://" && "ssr" + "://" == "ssr://"
    ensures IsLower("vmess") && IsLower("ssr")
  {
  }

  predicate IsLower(name: string) { forall i :: 0 <= i < |name| ==> 'a' <= name[i] <= 'z' }

  lemma PrefixIsScheme(scheme: string, rest: string, name: string)
    requires IndexOf(scheme + "://" + rest, "://") == |scheme| && IsLower(name)
    ensures name + "://" <= ToLower(scheme + "://" + rest) <==> ToLower(scheme) == name
  {
    var s := scheme + "://" + rest;
    if name + "://" <= ToLower(s) {
      PrefixStartsScheme(s, name);
      hide IndexOf;
      assert |scheme| <= |name|;
      assert s[|scheme|] == ':' && ToLower(s)[|scheme|] == ':';
      assert |scheme| == |name|;
      assert forall i :: 0 <= i < |name| ==> ToLower(scheme)[i] == ToLower(s)[i];
    }
    if ToLower(scheme) == name { LowerPrefix(scheme, rest, name); }
  }

  lemma PrefixStartsScheme(s: string, name: string)
    requires name + "://" <= ToLower(s)
    ensures |name| + 3 <= |s| && "://" <= s[|name|..] && ToLower(s)[..|name|] == name
  {
    var lower, n := ToLower(s), |name|;
    assert lower[..n + 3] == name + "://";
    assert lower[n] == ':' && lower[n + 1] == '/' && lower[n + 2] == '/';
    SeparatorIs(s, n);
    assert lower[..n] == lower[..n + 3][..n];
  }

  lemma LowerPrefix(scheme: string, rest: string, name: string)
    requires ToLower(scheme) == name
    ensures name + "://" <= ToLower(scheme + "://" + rest)
  {
    var lower := ToLower(scheme + "://" + rest);
    assert forall i :: 0 <= i < |name| ==> lower[i] == ToLower(scheme)[i];
    assert lower[..|name| + 3] == name + "://";
  }

  lemma QueryIsCut(u: Url)
    requires WellFormed(u)
    ensures Cut(UrlText(u), '?') == CutResult(BaseText(u), if u.query.Some? then QueryText(u.query.value)
            else "", u.query.Some?)
  {
    hide QueryText, IndexOf;
    var base := BaseText(u);
    BaseHasNoQuery(u);
    hide BaseText;
    if u.query.Some? {
      CutAt(base, '?', QueryText(u.query.value));
      assert base + ['?'] + QueryText(u.query.value) == UrlText(u);
    } else {
      assert UrlText(u) == base;
      assert Index(base, '?') < 0;
    }
    hide Cut, Index;
  }

  lemma BaseHasNoQuery(u: Url)
    requires WellFormed(u)
    ensures '?' !in BaseText(u)
  {
    hide IndexOf, AuthorityEnd;
    assert u.user.Some? ==> '?' !in u.user.value;
  }

  /** What RedactURL shows of a URL with its parts in place and no white space at its ends. */
  lemma RedactedIsShown(u: Url)
    requires WellFormed(u) && TrimSpace(UrlText(u)) == UrlText(u)
    ensures Redacted(UrlText(u)) ==
            if ToLower(u.scheme) == "vmess" then "vmess://***" else if ToLower(u.scheme) == "ssr" then "ssr://***"
                else Shown(u)
  {
    hide TrimSpace, QueryText, MaskedQuery, MaskedUser, AuthorityEnd, ToLower, BaseText, IndexOf, MaskMiddle;
    SchemeReads(u);
    UserIsMasked(u);
    QueryIsCut(u);
    if u.query.Some? { QueryIsMasked(u.query.value); }
    hide Cut, UrlText;
  }

  lemma SchemeReads(u: Url)
    requires WellFormed(u)
    ensures UrlText(u) != "" && Contains(UrlText(u), "://")
    ensures "vmess://" <= ToLower(UrlText(u)) <==> ToLower(u.scheme) == "vmess"
    ensures "ssr://" <= ToLower(UrlText(u)) <==> ToLower(u.scheme) == "ssr"
  {
    hide QueryText, AuthorityEnd, ToLower, IndexOf;
    var front := (if u.user.Some? then u.user.value + "@" else "") + u.tail;
    var rest := front + if u.query.Some? then "?" + QueryText(u.query.value) else "";
    assert BaseText(u) == u.scheme + "://" + front;
    assert UrlText(u) == u.scheme + "://" + rest;
    OpaquePrefix(u.scheme, rest);
    SeparatorStays(u.scheme, rest);
  }

  // ---------- independence of what is masked ----------

  predicate LastIsValue(u: Url)
  {
    u.query.Some? && u.query.value != [] && u.query.value[|u.query.value| - 1].Pair?
  }

  /** No white space at the ends, unless it belongs to a last query value. */
  predicate Edges(u: Url)
  {
    SpacePrefix(UrlText(u)) == 0 && (LastIsValue(u) || SpaceSuffix(UrlText(u)) == 0)
  }

  lemma {:induction false} TrimRightAfter(p: string, v: string)
    requires p != "" && IsGraph(p[|p| - 1])
    ensures TrimRight(p + v) == p + TrimRight(v)
    decreases |v|
  {
    var n := SpaceSuffix(v);
    SuffixAfter(p, v);
    if n > 0 {
      TrimRightAfter(p, v[..|v| - n]);
      assert (p + v)[..|p + v| - n] == p + v[..|v| - n];
    }
  }

  lemma SuffixAfter(p: string, v: string)
    requires p != "" && IsGraph(p[|p| - 1])
    ensures SpaceSuffix(p + v) == SpaceSuffix(v)
  {
    var s := p + v;
    assert forall k :: |p| <= k < |s| ==> s[k] == v[k - |p|];
    assert s[|p| - 1] == p[|p| - 1];
  }

  /** The URL with another last value. */
  function WithLast(u: Url, value: string): Url
    requires LastIsValue(u)
  {
    var n := |u.query.value| - 1;
    u.(query := Some(u.query.value[..n] + [Pair(u.query.value[n].key, value)]))
  }

  function LastValue(u: Url): string
    requires LastIsValue(u)
  {
    u.query.value[|u.query.value| - 1].value
  }

  function TrimmedUrl(u: Url): Url
    requires LastIsValue(u)
  {
    WithLast(u, TrimRight(LastValue(u)))
  }

  /** The text before the last value. */
  function BeforeLast(u: Url): string
    requires LastIsValue(u)
  {
    var n := |u.query.value| - 1;
    BaseText(u) + "?" + (Lead(u.query.value[..n]) + u.query.value[n].key + "=")
  }

  function Lead(front: seq<Part>): string { if front == [] then "" else QueryText(front) + "&" }

  lemma WithLastText(u: Url, value: string)
    requires LastIsValue(u)
    ensures UrlText(WithLast(u, value)) == BeforeLast(u) + value
    ensures BeforeLast(u) != "" && BeforeLast(u)[|BeforeLast(u)| - 1] == '='
  {
    var n := |u.query.value| - 1;
    var key := u.query.value[n].key;
    LastText(u.query.value[..n], key, value);
    SameBase(u, WithLast(u, value));
    hide BaseText, QueryText, Lead;
    Glue(BaseText(u), Lead(u.query.value[..n]) + key + "=", value);
  }

  lemma SameBase(u: Url, v: Url)
    requires u.scheme == v.scheme && u.user == v.user && u.tail == v.tail
    ensures BaseText(u) == BaseText(v)
  {
  }

  lemma SameLast(u: Url)
    requires LastIsValue(u)
    ensures WithLast(u, LastValue(u)) == u
  {
    var n := |u.query.value| - 1;
    assert u.query.value == u.query.value[..n] + [u.query.value[n]];
  }

  lemma Glue(base: string, head: string, value: string)
    ensures base + ("?" + (head + value)) == base + "?" + head + value
  {
  }

  lemma LastText(front: seq<Part>, key: string, value: string)
    ensures QueryText(front + [Pair(key, value)]) == Lead(front) + key + "=" + value
  {
    var texts, last := PartTexts(front), key + "=" + value;
    assert PartTexts(front + [Pair(key, value)]) == texts + [last];
    hide Join;
    if front == [] {
      JoinOne(last, "&");
      assert texts + [last] == [last];
      assert "" + key == key;
    } else {
      JoinSnoc(texts, last, "&");
      Assoc3(QueryText(front) + "&", key, value);
    }
  }

  lemma Assoc3(a: string, key: string, value: string)
    ensures a + (key + "=" + value) == a + key + "=" + value
  {
  }

  lemma TrimmedUrlFits(u: Url)
    requires WellFormed(u) && LastIsValue(u)
    ensures WellFormed(TrimmedUrl(u)) && Visible(TrimmedUrl(u)) == Visible(u)
  {
    var n := |u.query.value| - 1;
    var short := TrimRight(LastValue(u));
    TrimRightTrims(LastValue(u));
    assert '&' !in short by {
      assert forall i :: 0 <= i < |short| ==> short[i] == LastValue(u)[i];
    }
    var v := TrimmedUrl(u);
    hide TrimRight, IndexOf, AuthorityEnd;
    assert forall i :: 0 <= i < n ==> v.query.value[i] == u.query.value[i];
    assert MasksOf(v.query.value) == MasksOf(u.query.value);
  }

  lemma TrimsToTrimmedUrl(u: Url)
    requires LastIsValue(u) && SpacePrefix(UrlText(u)) == 0
    ensures TrimSpace(UrlText(u)) == UrlText(TrimmedUrl(u))
            && TrimSpace(UrlText(TrimmedUrl(u))) == UrlText(TrimmedUrl(u))
  {
    TrimSpaceTrims(UrlText(u));
    SameLast(u);
    WithLastText(u, LastValue(u));
    WithLastText(u, TrimRight(LastValue(u)));
    TrimRightAfter(BeforeLast(u), LastValue(u));
    hide UrlText, BeforeLast, TrimRight, SpacePrefix;
  }

  /** RedactURL on a URL with its parts in place and clean edges. */
  lemma EdgedParts(u: Url)
    requires WellFormed(u) && Edges(u)
    ensures Redacted(UrlText(u)) ==
            if ToLower(u.scheme) == "vmess" then "vmess://***" else if ToLower(u.scheme) == "ssr" then "ssr://***"
                else Shown(u)
  {
    hide ToLower, Shown, IndexOf, AuthorityEnd;
    if LastIsValue(u) {
      var v := TrimmedUrl(u);
      TrimmedUrlFits(u);
      TrimsToTrimmedUrl(u);
      RedactedIsShown(v);
      ShownIsVisible(u, v);
      RedactTrims(UrlText(u));
    } else {
      TrimmedIsFixed(UrlText(u));
      RedactedIsShown(u);
    }
    hide UrlText, Redacted, TrimSpace;
  }

  lemma RedactTrims(s: string)
    ensures Redacted(s) == Redacted(TrimSpace(s))
  {
    TrimSpaceTrims(s);
    hide TrimSpace, MaskedUser, MaskedQuery, Contains;
  }

  lemma QueryIsEmpty(parts: seq<Part>)
    requires parts != []
    ensures QueryText(parts) == "" <==> parts == [Key("")]
  {
    var texts := PartTexts(parts);
    assert texts[0] == PartText(parts[0]);
    if |parts| > 1 { assert Join(texts, "&") == texts[0] + "&" + Join(texts[1..], "&"); }
    hide Join;
    if |parts| == 1 { JoinOne(texts[0], "&"); assert texts == [texts[0]]; }
  }

  /** What is shown depends on the visible parts only. */
  lemma ShownIsVisible(u: Url, v: Url)
    requires WellFormed(u) && WellFormed(v) && Visible(u) == Visible(v)
    ensures Shown(u) == Shown(v) && u.scheme == v.scheme
  {
    hide IndexOf, AuthorityEnd, BaseText, QueryText;
    if u.query.Some? {
      QueryIsEmpty(u.query.value);
      QueryIsEmpty(v.query.value);
      var a, b := u.query.value, v.query.value;
      assert MasksOf(a) == MasksOf(b) && |a| == |b|;
      assert MaskOf(a[0]) == MasksOf(a)[0] == MasksOf(b)[0] == MaskOf(b[0]);
      assert a == [Key("")] <==> |a| == 1 && a[0] == Key("");
      assert b == [Key("")] <==> |b| == 1 && b[0] == Key("");
    }
  }

  // -- white space at the ends --

  /** The query without the white space that ends a last key. */
  function StrippedQuery(parts: seq<Part>): seq<Part>
    requires parts != []
  {
    var n := |parts| - 1;
    if parts[n].Pair? then parts else parts[..n] + [Key(TrimRight(parts[n].key))]
  }

  /** The URL without the white space around its text, but for white space in a last value. */
  function Stripped(u: Url): Url
    requires u.query.Some? ==> u.query.value != []
  {
    var v := u.(scheme := TrimLeft(u.scheme));
    if u.query.None? then v.(tail := TrimRight(u.tail)) else v.(query := Some(StrippedQuery(u.query.value)))
  }

  lemma {:induction false} TrimLeftBefore(s: string, rest: string)
    requires rest != "" && IsGraph(rest[0])
    ensures TrimLeft(s + rest) == TrimLeft(s) + rest && SpacePrefix(TrimLeft(s) + rest) == 0
    decreases |s|
  {
    PrefixBeforeGraph(s, rest);
    var n := SpacePrefix(s);
    if n > 0 {
      TrimLeftBefore(s[n..], rest);
      assert (s + rest)[n..] == s[n..] + rest;
    }
  }

  lemma PrefixBeforeGraph(s: string, rest: string)
    requires rest != "" && IsGraph(rest[0])
    ensures SpacePrefix(s + rest) == SpacePrefix(s)
  {
    var t := s + rest;
    assert forall i :: 0 <= i < |s| ==> t[i] == s[i];
    assert t[|s|] == rest[0];
  }

  /** White space around the text goes with the white space of its parts. */
  lemma TextTrims(scheme: string, front: string, last: string)
    requires front != "" && IsGraph(front[0]) && IsGraph(front[|front| - 1])
    ensures TrimSpace(scheme + (front + last)) == TrimSpace(TrimLeft(scheme) + (front + TrimRight(last)))
    ensures SpacePrefix(TrimLeft(scheme) + (front + last)) == 0
    ensures SpaceSuffix(TrimLeft(scheme) + (front + TrimRight(last))) == 0
  {
    hide SpacePrefix, SpaceSuffix, TrimLeft, TrimRight;
    var lead := TrimLeft(scheme);
    TrimLeftTwice(scheme);
    TrimRightTrims(last);
    TrimRightDone(TrimRight(last));
    TrimLeftBefore(scheme, front + last);
    TrimLeftBefore(lead, front + TrimRight(last));
    assert (lead + front)[|lead + front| - 1] == front[|front| - 1];
    TrimRightAfter(lead + front, last);
    TrimRightAfter(lead + front, TrimRight(last));
    SuffixAfter(lead + front, TrimRight(last));
    Text.Regroup(lead, front, last);
    Text.Regroup(lead, front, TrimRight(last));
  }

  lemma TrimLeftTwice(s: string)
    ensures TrimLeft(TrimLeft(s)) == TrimLeft(s)
  {
    TrimLeftTrims(s);
  }

  lemma TrimRightDone(s: string)
    requires SpaceSuffix(s) == 0
    ensures TrimRight(s) == s
  {
  }

  /** The text between the scheme and the last part, and the last part unless that is a value. */
  lemma TextParts(u: Url) returns (front: string, last: string)
    requires u.query.Some? ==> u.query.value != []
    ensures UrlText(u) == u.scheme + (front + last)
    ensures front != "" && IsGraph(front[0]) && IsGraph(front[|front| - 1])
    ensures UrlText(Stripped(u)) == TrimLeft(u.scheme) + (front + if LastIsValue(u) then last else TrimRight(last))
  {
    hide IndexOf, AuthorityEnd, TrimLeft, TrimRight, WellFormed, QueryText, Lead;
    var user := if u.user.Some? then u.user.value + "@" else "";
    var lead := TrimLeft(u.scheme);
    BaseParts(u.scheme, user, u.tail);
    BaseParts(lead, user, u.tail);
    if u.query.None? {
      front, last := "://" + user, u.tail;
      BaseParts(lead, user, TrimRight(u.tail));
      assert front[0] == ':';
    } else {
      var parts := u.query.value;
      var n := |parts| - 1;
      var base := "://" + user + u.tail;
      QueryEnds(parts);
      QueryEnds(StrippedQuery(parts));
      assert StrippedQuery(parts)[..n] == parts[..n];
      front, last := base + ("?" + LastFront(parts)), LastEnd(parts);
      BaseEnds(base, LastFront(parts), parts);
      Around(u.scheme, base, LastFront(parts), last);
      Around(lead, base, LastFront(parts), LastEnd(StrippedQuery(parts)));
    }
  }

  function LastFront(parts: seq<Part>): string
    requires parts != []
  {
    var n := |parts| - 1;
    Lead(parts[..n]) + if parts[n].Pair? then parts[n].key + "=" else ""
  }

  function LastEnd(parts: seq<Part>): string
    requires parts != []
  {
    var last := parts[|parts| - 1];
    if last.Pair? then last.value else last.key
  }

  lemma BaseParts(scheme: string, user: string, tail: string)
    ensures scheme + "://" + user + tail == scheme + ("://" + user + tail)
  {
  }

  lemma Around(scheme: string, base: string, front: string, last: string)
    ensures scheme + base + ("?" + (front + last)) == scheme + (base + ("?" + front) + last)
  {
  }

  lemma BaseEnds(base: string, front: string, parts: seq<Part>)
    requires "://" <= base && parts != [] && front == LastFront(parts)
    ensures var t := base + ("?" + front); t != "" && IsGraph(t[0]) && IsGraph(t[|t| - 1])
  {
    hide QueryText;
    var t := base + ("?" + front);
    assert t[0] == base[0] == ':';
    var n := |parts| - 1;
    if parts[n].Pair? {
      assert t[|t| - 1] == '=';
    } else if parts[..n] == [] {
      assert t[|t| - 1] == '?';
    } else {
      assert t[|t| - 1] == '&';
    }
  }

  lemma QueryEnds(parts: seq<Part>)
    requires parts != []
    ensures QueryText(parts) == LastFront(parts) + LastEnd(parts)
  {
    var n := |parts| - 1;
    var last := parts[n];
    assert parts == parts[..n] + [last];
    if last.Pair? {
      LastText(parts[..n], last.key, last.value);
      Assoc3(Lead(parts[..n]), last.key, "");
    } else {
      KeyText(parts[..n], last.key);
    }
    hide QueryText, Lead;
  }

  lemma KeyText(front: seq<Part>, key: string)
    ensures QueryText(front + [Key(key)]) == Lead(front) + key
  {
    var texts := PartTexts(front);
    assert PartTexts(front + [Key(key)]) == texts + [key];
    hide Join;
    if front == [] {
      JoinOne(key, "&");
      assert texts + [key] == [key];
    } else {
      JoinSnoc(texts, key, "&");
    }
  }

  lemma StrippedFits(u: Url)
    requires WellFormed(u)
    ensures WellFormed(Stripped(u)) && Edges(Stripped(u)) && Redacted(UrlText(u)) == Redacted(UrlText(Stripped(u)))
  {
    var front, last := TextParts(u);
    StrippedIsWellFormed(u);
    TextTrims(u.scheme, front, last);
    RedactTrims(UrlText(u));
    RedactTrims(UrlText(Stripped(u)));
    TrimsAlike(u, front, last);
    hide WellFormed, TrimLeft, TrimRight, SpacePrefix, SpaceSuffix, UrlText, Redacted, TrimSpace, Stripped;
  }

  /** Both texts trim to the same text. */
  lemma TrimsAlike(u: Url, front: string, last: string)
    requires u.query.Some? ==> u.query.value != []
    requires front != "" && IsGraph(front[0]) && IsGraph(front[|front| - 1])
    requires UrlText(u) == u.scheme + (front + last)
    requires UrlText(Stripped(u)) == TrimLeft(u.scheme) + (front + if LastIsValue(u) then last else TrimRight(last))
    ensures TrimSpace(UrlText(u)) == TrimSpace(UrlText(Stripped(u))) && Edges(Stripped(u))
  {
    hide TrimLeft, TrimRight, SpacePrefix, SpaceSuffix, UrlText, TrimSpace;
    TextTrims(u.scheme, front, last);
    TextTrims(TrimLeft(u.scheme), front, last);
    TrimLeftTwice(u.scheme);
    TextTrims(u.scheme, front, TrimRight(last));
  }

  lemma StrippedIsWellFormed(u: Url)
    requires WellFormed(u)
    ensures WellFormed(Stripped(u))
  {
    hide TrimLeft, TrimRight, IndexOf, AuthorityEnd, EndsAuthority, IsPart;
    TrimLeftTrims(u.scheme);
    SchemeFits(u.scheme, |u.scheme| - |TrimLeft(u.scheme)|);
    if u.query.None? {
      TrimRightTrims(u.tail);
      TailFits(u.tail, TrimRight(u.tail));
    } else {
      PartsFit(u.query.value);
    }
  }

  lemma PartsFit(parts: seq<Part>)
    requires parts != [] && forall i :: 0 <= i < |parts| ==> IsPart(parts[i])
    ensures StrippedQuery(parts) != [] && forall i :: 0 <= i < |StrippedQuery(parts)| ==>
            IsPart(StrippedQuery(parts)[i])
  {
    var key := parts[|parts| - 1].key;
    TrimRightTrims(key);
    hide TrimRight;
    assert forall i :: 0 <= i < |TrimRight(key)| ==> TrimRight(key)[i] == key[i];
  }

  lemma SchemeFits(scheme: string, k: nat)
    requires IndexOf(scheme + "://", "://") == |scheme| && k <= |scheme| && '?' !in scheme
    ensures IndexOf(scheme[k..] + "://", "://") == |scheme| - k && '?' !in scheme[k..]
  {
    hide *;
    var s, t := scheme + "://", scheme[k..] + "://";
    SchemeSuffix(scheme, k);
    forall i | 0 <= i < |scheme| - k
      ensures !("://" <= t[i..])
    {
      SameRest(s, k, i);
    }
    FoundAt(t, |scheme| - k);
  }

  lemma SchemeSuffix(scheme: string, k: nat)
    requires k <= |scheme| && '?' !in scheme
    ensures scheme[k..] + "://" == (scheme + "://")[k..] && "://" <= (scheme[k..] + "://")[|scheme| - k..]
            && '?' !in scheme[k..]
  {
    assert (scheme[k..] + "://")[|scheme| - k..] == "://";
  }

  lemma SameRest(s: string, k: nat, i: nat)
    requires k + i <= |s|
    ensures s[k..][i..] == s[k + i..]
  {
  }

  lemma FoundAt(t: string, at: nat)
    requires at <= |t| && "://" <= t[at..] && forall i :: 0 <= i < at ==> !("://" <= t[i..])
    ensures IndexOf(t, "://") == at
  {
    hide IndexOf;
  }

  lemma TailFits(tail: string, short: string)
    requires short <= tail && '?' !in tail && '@' !in tail[..AuthorityEnd(tail)]
    ensures '?' !in short && '@' !in short[..AuthorityEnd(short)]
  {
    var e, f := AuthorityEnd(tail), AuthorityEnd(short);
    assert forall i :: 0 <= i < |short| ==> short[i] == tail[i];
    assert f <= e;
    assert forall i :: 0 <= i < f ==> short[..f][i] == tail[..e][i];
    hide AuthorityEnd;
  }

  lemma VisibleStripped(u: Url)
    requires WellFormed(u)
    ensures Visible(Stripped(u)) == Stripped(Visible(u))
  {
    hide IndexOf, AuthorityEnd, TrimLeft, TrimRight;
    if u.query.Some? {
      var parts := u.query.value;
      var n := |parts| - 1;
      assert MasksOf(parts)[n] == MaskOf(parts[n]);
      assert MasksOf(StrippedQuery(parts)) == StrippedQuery(MasksOf(parts));
    }
  }

  /** RedactURL on any URL with its parts in place: trim, then mask the userinfo and every query value. */
  lemma RedactedParts(u: Url)
    requires WellFormed(u)
    ensures var v := Stripped(u);
            Redacted(UrlText(u)) ==
            if ToLower(v.scheme) == "vmess" then "vmess://***" else if ToLower(v.scheme) == "ssr" then "ssr://***"
                else Shown(v)
  {
    StrippedFits(u);
    EdgedParts(Stripped(u));
    hide WellFormed, Redacted, UrlText, Stripped, Edges, Shown, ToLower;
  }

  /** URLs that differ only in userinfo and query values are shown as the same text, white space around them or not. */
  lemma RedactedIsIndependent(u: Url, v: Url)
    requires WellFormed(u) && WellFormed(v) && Visible(u) == Visible(v)
    ensures Redacted(UrlText(u)) == Redacted(UrlText(v))
  {
    StrippedFits(u);
    StrippedFits(v);
    VisibleStripped(u);
    VisibleStripped(v);
    RedactedParts(u);
    RedactedParts(v);
    ShownIsVisible(Stripped(u), Stripped(v));
    hide WellFormed, Redacted, UrlText, Stripped, Edges, Shown, ToLower, Visible;
  }

  // ---------- every URL has its parts ----------

  function PartOf(p: string): Part
  {
    var cut := Cut(p, '=');
    if cut.found then Pair(cut.before, cut.after) else Key(p)
  }

  function PartsOf(texts: seq<string>): (r: seq<Part>)
    ensures |r| == |texts|
  {
    seq(|texts|, i requires 0 <= i < |texts| => PartOf(texts[i]))
  }

  function SchemeOf(base: string): string
    requires Contains(base, "://")
  {
    SeparatorInside(base);
    base[..IndexOf(base, "://")]
  }

  function RestOf(base: string): string
    requires Contains(base, "://")
  {
    SeparatorInside(base);
    base[IndexOf(base, "://") + 3..]
  }

  /** The place of the last '@' of the authority, -1 if it has none. */
  function UserEnd(rest: string): (at: int)
    ensures -1 <= at < |rest|
  {
    LastIndex(rest[..AuthorityEnd(rest)], '@')
  }

  function UserOf(rest: string): Option<string>
  {
    if UserEnd(rest) >= 0 then Some(rest[..UserEnd(rest)]) else None
  }

  function TailOf(rest: string): string { rest[UserEnd(rest) + 1..] }

  /** The parts of a text with "://" before its first '?'. */
  function Dissect(raw: string): Url
    requires Contains(Cut(raw, '?').before, "://")
  {
    var cut := Cut(raw, '?');
    var rest := RestOf(cut.before);
    Url(SchemeOf(cut.before), UserOf(rest), TailOf(rest),
        if cut.found then Some(PartsOf(Split(cut.after, '&'))) else None)
  }

  lemma PartOfText(p: string)
    requires '&' !in p
    ensures IsPart(PartOf(p)) && PartText(PartOf(p)) == p
  {
    var i := Index(p, '=');
    if i >= 0 { assert p == p[..i] + "=" + p[i + 1..]; }
    hide Index;
  }

  lemma QueryDissected(q: string)
    ensures var parts := PartsOf(Split(q, '&'));
            parts != [] && (forall i :: 0 <= i < |parts| ==> IsPart(parts[i])) && QueryText(parts) == q
  {
    var texts := Split(q, '&');
    SplitAvoids(q, '&');
    hide Split, Join;
    forall i | 0 <= i < |texts|
      ensures IsPart(PartOf(texts[i])) && PartText(PartOf(texts[i])) == texts[i]
    {
      PartOfText(texts[i]);
    }
    hide PartOf, IsPart, PartText;
    assert PartTexts(PartsOf(texts)) == texts;
  }

  /** The scheme ends at the first separator. */
  lemma SchemeDissected(base: string)
    requires IndexOf(base, "://") >= 0
    ensures var sep := IndexOf(base, "://");
            sep + 3 <= |base| && IndexOf(base[..sep] + "://", "://") == sep
                && base == base[..sep] + "://" + base[sep + 3..]
  {
    var sep := IndexOf(base, "://");
    SeparatorInside(base);
    SeparatorIs(base, sep);
    FirstInPrefix(base, sep);
    hide IndexOf;
    SeparatorSlice(base, sep);
  }

  lemma SeparatorSlice(base: string, sep: nat)
    requires sep + 3 <= |base| && SeparatorAt(base, sep)
    ensures base[..sep] + "://" == base[..sep + 3] && base == base[..sep] + "://" + base[sep + 3..]
  {
    assert base[sep..sep + 3] == "://";
    assert base[..sep + 3] == base[..sep] + base[sep..sep + 3];
    assert base == base[..sep + 3] + base[sep + 3..];
  }

  lemma FirstInPrefix(base: string, sep: nat)
    requires sep + 3 <= |base| && IndexOf(base, "://") == sep
    ensures IndexOf(base[..sep + 3], "://") == sep
  {
    var t := base[..sep + 3];
    SeparatorIs(base, sep);
    SeparatorIs(t, sep);
    forall i | 0 <= i < sep
      ensures !("://" <= t[i..])
    {
      SeparatorIs(t, i);
      SeparatorIs(base, i);
    }
  }

  lemma SplitAt(rest: string, at: nat)
    requires at < |rest| && rest[at] == '@'
    ensures rest == rest[..at] + "@" + rest[at + 1..]
  {
  }

  /** Dropping part of the authority leaves the rest of it. */
  lemma AuthorityShift(rest: string, k: nat)
    requires k <= AuthorityEnd(rest)
    ensures AuthorityEnd(rest[k..]) == AuthorityEnd(rest) - k
  {
    var tail, end := rest[k..], AuthorityEnd(rest);
    var e := AuthorityEnd(tail);
    hide AuthorityEnd;
    assert forall i :: 0 <= i < |tail| ==> tail[i] == rest[k + i];
    assert e < |tail| ==> EndsAuthority(rest[k + e]);
    assert end < |rest| ==> EndsAuthority(tail[end - k]);
  }

  /** The scheme and the rest make up the text before the query. */
  lemma PiecesDissected(base: string)
    requires Contains(base, "://")
    ensures IndexOf(SchemeOf(base) + "://", "://") == |SchemeOf(base)|
    ensures base == SchemeOf(base) + "://" + RestOf(base)
  {
    hide IndexOf;
    SchemeDissected(base);
  }

  /** So do the userinfo and the tail for the rest. */
  lemma RestRejoins(rest: string)
    ensures rest == if UserOf(rest).Some? then UserOf(rest).value + "@" + TailOf(rest) else TailOf(rest)
  {
    hide AuthorityEnd, LastIndex;
    var at := UserEnd(rest);
    if at >= 0 {
      SplitAt(rest, at);
    } else {
      assert rest[0..] == rest;
    }
  }

  lemma TailHasNoUser(rest: string)
    ensures '@' !in TailOf(rest)[..AuthorityEnd(TailOf(rest))]
  {
    hide AuthorityEnd, LastIndex;
    var end := AuthorityEnd(rest);
    var at := LastIndex(rest[..end], '@');
    AuthorityShift(rest, at + 1);
    NoneAfter(rest, end, at);
  }

  lemma UserEnds(rest: string)
    requires UserOf(rest).Some?
    ensures forall i :: 0 <= i < |UserOf(rest).value| ==> !EndsAuthority(UserOf(rest).value[i])
  {
    hide AuthorityEnd, LastIndex, EndsAuthority;
    FrontEnds(rest, UserEnd(rest));
  }

  lemma NoneAfter(rest: string, end: nat, at: int)
    requires -1 <= at < end <= |rest| || (at == -1 && end == 0)
    requires forall k :: at < k < end ==> rest[..end][k] != '@'
    ensures '@' !in rest[at + 1..][..end - at - 1]
  {
    var t := rest[at + 1..][..end - at - 1];
    forall i | 0 <= i < |t|
      ensures t[i] != '@'
    {
      assert rest[..end][at + 1 + i] == t[i];
    }
  }

  lemma DissectFits(raw: string)
    requires Contains(Cut(raw, '?').before, "://")
    ensures WellFormed(Dissect(raw)) && UrlText(Dissect(raw)) == raw
  {
    hide Cut, Dissect, WellFormed, UrlText;
    DissectRejoins(raw);
    DissectParts(raw);
  }

  lemma DissectRejoins(raw: string)
    requires Contains(Cut(raw, '?').before, "://")
    ensures UrlText(Dissect(raw)) == raw
  {
    hide Cut, IndexOf, AuthorityEnd, LastIndex, PartsOf, Split, QueryText, BaseText;
    CutRejoins(raw);
    QueryDissected(Cut(raw, '?').after);
    BaseDissected(raw);
  }

  lemma DissectParts(raw: string)
    requires Contains(Cut(raw, '?').before, "://")
    ensures WellFormed(Dissect(raw))
  {
    hide Cut, Contains, IndexOf, AuthorityEnd, PartsOf, Split, QueryText, BaseText, EndsAuthority, IsPart,
        SchemeOf, RestOf, UserOf, TailOf;
    var cut := Cut(raw, '?');
    CutRejoins(raw);
    PiecesDissected(cut.before);
    var rest := RestOf(cut.before);
    TailHasNoUser(rest);
    if UserOf(rest).Some? { UserEnds(rest); }
    QueryDissected(cut.after);
    BaseDissected(raw);
    PiecesHaveNoQuery(cut.before, Dissect(raw));
  }

  lemma FrontEnds(rest: string, at: int)
    requires at < |rest| && forall i :: 0 <= i < at ==> !EndsAuthority(rest[i])
    ensures at >= 0 ==> forall i :: 0 <= i < |rest[..at]| ==> !EndsAuthority(rest[..at][i])
  {
    hide EndsAuthority;
    if at >= 0 { assert forall i :: 0 <= i < at ==> rest[..at][i] == rest[i]; }
  }

  lemma CutRejoins(raw: string)
    ensures var cut := Cut(raw, '?');
            raw == cut.before + (if cut.found then "?" + cut.after else "") && '?' !in cut.before
  {
    var i := Index(raw, '?');
    hide Index;
    if i >= 0 { assert raw == raw[..i] + ("?" + raw[i + 1..]); } else { assert raw + "" == raw; }
  }

  lemma PiecesHaveNoQuery(base: string, u: Url)
    requires BaseText(u) == base && '?' !in base
    ensures '?' !in u.scheme && '?' !in u.tail
  {
    var front := u.scheme + "://" + if u.user.Some? then u.user.value + "@" else "";
    assert base == front + u.tail;
    assert forall i :: 0 <= i < |u.tail| ==> base[|front| + i] == u.tail[i];
    assert forall i :: 0 <= i < |u.scheme| ==> base[i] == u.scheme[i];
  }

  lemma BaseDissected(raw: string)
    requires Contains(Cut(raw, '?').before, "://")
    ensures BaseText(Dissect(raw)) == Cut(raw, '?').before
  {
    hide Cut, Contains, PartsOf, BaseText, SchemeOf, RestOf, UserOf, TailOf;
    var base := Cut(raw, '?').before;
    PiecesDissected(base);
    RestRejoins(RestOf(base));
    BaseOfPieces(Dissect(raw), RestOf(base));
  }

  lemma BaseOfPieces(u: Url, rest: string)
    requires if u.user.Some? then rest == u.user.value + "@" + u.tail else rest == u.tail
    ensures BaseText(u) == u.scheme + "://" + rest
  {
    if u.user.Some? {
      Regroup(u.scheme + "://", u.user.value, u.tail);
    } else {
      assert u.scheme + "://" + "" + rest == u.scheme + "://" + rest;
    }
  }
}
