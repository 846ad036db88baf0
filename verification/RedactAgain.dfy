/**
  RedactURL applied to what RedactURL shows (internal/config/redact.go): when the second pass changes
  nothing.
 */
module RedactAgain {
  import opened Text
  import opened Redact
  import opened Wrappers

  // ---------- twice is once ----------

  /** No white space anywhere. */
  ghost predicate NoSpace(s: string) { forall i :: 0 <= i < |s| ==> SpacePrefix(s[i..]) == 0 }

  /** A text inside one without white space neither starts nor ends with any. */
  lemma NoSpaceInside(s: string, i: nat, j: nat)
    requires NoSpace(s) && i <= j <= |s|
    ensures SpacePrefix(s[i..j]) == 0 && SpaceSuffix(s[i..j]) == 0
  {
    var t := s[i..j];
    if i < j {
      assert SpacePrefix(s[i..]) == 0;
      assert forall k :: 0 <= k < j - i ==> t[k] == s[i..][k];
      if SpaceSuffix(t) > 0 { SuffixIsPrefix(s, i, j); }
    }
  }

  lemma SuffixIsPrefix(s: string, i: nat, j: nat)
    requires i < j <= |s| && SpaceSuffix(s[i..j]) > 0
    ensures exists k :: 0 <= k < |s| && SpacePrefix(s[k..]) > 0
  {
    hide NoSpace;
    var n := SpaceSuffix(s[i..j]);
    SpaceAt(s[i..j], s[j - n..], n);
  }

  /** White space at the end of t is white space at the start of x. */
  lemma SpaceAt(t: string, x: string, n: nat)
    requires n == SpaceSuffix(t) > 0 && n <= |x| && forall k :: 0 <= k < n ==> x[k] == t[|t| - n + k]
    ensures SpacePrefix(x) > 0
  {
  }

  lemma SlotSuffix(front: string, t: string)
    requires front != "" && IsGraph(front[|front| - 1]) && SpaceSuffix(t) == 0
    ensures SpaceSuffix(front + t) == 0
  {
    SuffixAfter(front, t);
    hide SpaceSuffix;
  }

  /** The visible URL is its own visible URL, and well formed. */
  lemma VisibleTwice(u: Url)
    requires WellFormed(u)
    ensures WellFormed(Visible(u)) && Visible(Visible(u)) == Visible(u)
  {
    hide IndexOf, AuthorityEnd;
    var v := Visible(u);
    if u.query.Some? {
      assert forall i :: 0 <= i < |v.query.value| ==> IsPart(v.query.value[i]);
      assert MasksOf(v.query.value) == v.query.value;
    }
  }

  lemma StartStays(a: string, b: string)
    requires |a| >= 3 && |b| >= 3 && a[..3] == b[..3]
    ensures SpacePrefix(a) == SpacePrefix(b)
  {
    assert a[0] == a[..3][0] && a[1] == a[..3][1] && a[2] == a[..3][2];
    assert b[0] == b[..3][0] && b[1] == b[..3][1] && b[2] == b[..3][2];
  }

  /** The visible URL starts as the URL does. */
  lemma VisibleStarts(u: Url)
    ensures SpacePrefix(UrlText(Visible(u))) == SpacePrefix(UrlText(u))
  {
    hide QueryText;
    var a, b := UrlText(u), UrlText(Visible(u));
    assert u.scheme + "://" <= a && u.scheme + "://" <= b;
    var n := |u.scheme| + 3;
    assert a[..n] == b[..n] == u.scheme + "://";
    assert a[..3] == a[..n][..3] && b[..3] == b[..n][..3];
    StartStays(a, b);
    hide UrlText;
  }

  /** Dropping an empty query. */
  function Normal(u: Url): Url
  {
    if u.query.Some? && QueryText(u.query.value) == "" then u.(query := None) else u
  }

  lemma ShownIsNormal(u: Url)
    requires WellFormed(u)
    ensures Shown(u) == UrlText(Visible(Normal(u))) && WellFormed(Normal(u)) && Shown(Normal(u)) == Shown(u)
  {
    hide IndexOf, AuthorityEnd, BaseText, QueryText;
    SameBase(Visible(u), Visible(Normal(u)));
  }

  /** The end of the visible URL is clean when the URL has no white space. */
  lemma VisibleEnds(u: Url)
    requires WellFormed(u) && NoSpace(UrlText(u)) && !LastIsValue(u)
    ensures SpaceSuffix(UrlText(Visible(u))) == 0
  {
    hide SpaceSuffix, SpacePrefix, IndexOf, AuthorityEnd;
    if u.query.None? {
      TailEnds(u);
    } else {
      KeyEnds(u);
    }
  }

  lemma TailEnds(u: Url)
    requires NoSpace(UrlText(u)) && u.query.None?
    ensures SpaceSuffix(UrlText(Visible(u))) == 0
  {
    hide SpaceSuffix, SpacePrefix, NoSpace;
    var front := u.scheme + "://" + if u.user.Some? then u.user.value + "@" else "";
    var shown := u.scheme + "://" + if u.user.Some? then MASK + "@" else "";
    assert UrlText(u) == front + u.tail && UrlText(Visible(u)) == shown + u.tail;
    hide UrlText;
    NoSpaceInside(front + u.tail, |front|, |front + u.tail|);
    assert (front + u.tail)[|front|..|front + u.tail|] == u.tail;
    SlotSuffix(shown, u.tail);
  }

  lemma KeyEnds(u: Url)
    requires WellFormed(u) && NoSpace(UrlText(u)) && u.query.Some? && !LastIsValue(u)
    ensures SpaceSuffix(UrlText(Visible(u))) == 0
  {
    var n := |u.query.value| - 1;
    var key := u.query.value[n].key;
    var masks := MasksOf(u.query.value);
    var front := BaseText(u) + "?" + Lead(u.query.value[..n]);
    var shown := BaseText(Visible(u)) + "?" + Lead(masks[..n]);
    LastKeyText(u);
    assert masks[n] == Key(key);
    LastKeyText(Visible(u));
    LeadEnds(BaseText(Visible(u)), masks[..n]);
    hide BaseText, Lead, SpaceSuffix, SpacePrefix, UrlText;
    NoSpaceInside(front + key, |front|, |front + key|);
    assert (front + key)[|front|..] == key && (front + key)[|front|..|front + key|] == (front + key)[|front|..];
    SlotSuffix(shown, key);
  }

  lemma LastKeyText(u: Url)
    requires u.query.Some? && u.query.value != [] && u.query.value[|u.query.value| - 1].Key?
    ensures var n := |u.query.value| - 1;
            UrlText(u) == BaseText(u) + "?" + Lead(u.query.value[..n]) + u.query.value[n].key
  {
    var n := |u.query.value| - 1;
    var key := u.query.value[n].key;
    KeyText(u.query.value[..n], key);
    assert u.query.value == u.query.value[..n] + [Key(key)];
    hide BaseText, QueryText, Lead;
    Glue(BaseText(u), Lead(u.query.value[..n]), key);
  }

  lemma LeadEnds(base: string, front: seq<Part>)
    ensures var t := base + "?" + Lead(front); t != "" && IsGraph(t[|t| - 1])
  {
    hide QueryText;
  }

  /** A text without white space and with "://" before its first '?' is shown the same when redacted again. */
  lemma RedactTwice(raw: string)
    requires NoSpace(raw) && Contains(Cut(raw, '?').before, "://")
    ensures Redacted(Redacted(raw)) == Redacted(raw)
  {
    DissectFits(raw);
    var u := Dissect(raw);
    assert UrlText(u) == raw;
    NoSpaceEdges(u);
    EdgedParts(u);
    if ToLower(u.scheme) == "vmess" || ToLower(u.scheme) == "ssr" {
      OpaqueTwice();
    } else {
      ShownTwice(u);
    }
    hide Redacted, Dissect, UrlText, Shown, ToLower, Edges, NoSpace, WellFormed, Contains, Cut;
  }

  lemma OpaqueTwice()
    ensures Redacted("vmess://***") == "vmess://***" && Redacted("ssr://***") == "ssr://***"
  {
    hide TrimSpace, Contains, MaskedUser, MaskedQuery;
    GraphIsTrimmed("vmess://***");
    GraphIsTrimmed("ssr://***");
    OpaqueLower();
    hide ToLower;
  }

  lemma OpaqueLower()
    ensures ToLower("vmess://***") == "vmess://***" && ToLower("ssr://***") == "ssr://***"
    ensures "ssr://" <= "ssr://***" && "vmess://" <= "vmess://***"
  {
    assert "ssr://***"[..6] == "ssr://" && "vmess://***"[..8] == "vmess://";
  }

  lemma NoSpaceEdges(u: Url)
    requires NoSpace(UrlText(u))
    ensures Edges(u)
  {
    hide UrlText;
    var raw := UrlText(u);
    NoSpaceInside(raw, 0, |raw|);
    assert raw[0..|raw|] == raw;
    hide SpacePrefix, SpaceSuffix;
  }

  lemma ShownTwice(u: Url)
    requires WellFormed(u) && NoSpace(UrlText(u)) && ToLower(u.scheme) != "vmess" && ToLower(u.scheme) != "ssr"
    ensures Redacted(Shown(u)) == Shown(u)
  {
    var w := Normal(u);
    ShownIsNormal(u);
    NormalHasNoSpace(u);
    NoSpaceEdges(w);
    VisibleTwice(w);
    VisibleStarts(w);
    if !LastIsValue(w) { VisibleEnds(w); }
    var v := Visible(w);
    assert LastIsValue(w) ==> LastIsValue(v);
    assert Edges(v);
    EdgedParts(v);
    ShownOfVisible(w);
    hide Redacted, UrlText, Shown, Normal, Edges, NoSpace, WellFormed, ToLower, SpacePrefix, SpaceSuffix;
  }

  lemma ShownOfVisible(w: Url)
    requires WellFormed(w)
    ensures Shown(Visible(w)) == Shown(w)
  {
    VisibleTwice(w);
    ShownIsVisible(w, Visible(w));
  }

  lemma NormalHasNoSpace(u: Url)
    requires WellFormed(u) && NoSpace(UrlText(u))
    ensures NoSpace(UrlText(Normal(u)))
  {
    hide BaseText, QueryText, SpacePrefix;
    if u.query.Some? && QueryText(u.query.value) == "" {
      var base := BaseText(u);
      SameBase(u, Normal(u));
      assert UrlText(u) == base + "?";
      assert UrlText(Normal(u)) == base;
      forall i | 0 <= i < |base|
        ensures SpacePrefix(base[i..]) == 0
      {
        assert (base + "?")[i..] == base[i..] + "?";
        PrefixBefore(base[i..], '?');
      }
    }
  }

  lemma PrefixBefore(t: string, c: char)
    requires t != "" && IsGraph(c) && SpacePrefix(t + [c]) == 0
    ensures SpacePrefix(t) == 0
  {
    var s := t + [c];
    assert forall i :: 0 <= i < |t| ==> s[i] == t[i];
  }

  // ---------- exactly when twice is once ----------

  predicate HasSeparator(s: string) { exists i :: 0 <= i <= |s| - 3 && SeparatorAt(s, i) }

  lemma ContainsIff(s: string)
    ensures Contains(s, "://") <==> HasSeparator(s)
  {
    if Contains(s, "://") {
      var i := IndexOf(s, "://");
      SeparatorInside(s);
      SeparatorIs(s, i);
    }
    if HasSeparator(s) {
      var i :| 0 <= i <= |s| - 3 && SeparatorAt(s, i);
      PrefixFound(s, i);
    }
  }

  /** A separator does not reach over a character that is none of its own. */
  lemma Across(a: string, c: char, b: string)
    requires c != ':' && c != '/'
    ensures Contains(a + [c] + b, "://") <==> Contains(a, "://") || Contains(b, "://")
  {
    hide Contains;
    var s := a + [c] + b;
    ContainsIff(s);
    ContainsIff(a);
    ContainsIff(b);
    assert forall i :: 0 <= i < |a| ==> s[i] == a[i];
    assert s[|a|] == c;
    assert forall i :: 0 <= i < |b| ==> s[|a| + 1 + i] == b[i];
    if HasSeparator(s) {
      var i :| 0 <= i <= |s| - 3 && SeparatorAt(s, i);
      if i + 3 <= |a| {
        assert SeparatorAt(a, i);
      } else {
        assert i > |a|;
        assert SeparatorAt(b, i - |a| - 1);
      }
    }
    if HasSeparator(a) {
      var i :| 0 <= i <= |a| - 3 && SeparatorAt(a, i);
      assert SeparatorAt(s, i);
    }
    if HasSeparator(b) {
      var i :| 0 <= i <= |b| - 3 && SeparatorAt(b, i);
      assert SeparatorAt(s, |a| + 1 + i);
    }
  }

  lemma PartHolds(p: Part)
    ensures Contains(PartText(MaskOf(p)), "://") <==> Contains(p.key, "://")
  {
    hide Contains;
    if p.Pair? {
      NotContained(MASK, "://");
      Across(p.key, '=', MASK);
      assert p.key + ['='] + MASK == PartText(MaskOf(p));
    }
  }

  /** Some key, or part without a value, holds the separator. */
  predicate KeysHold(parts: seq<Part>) { exists i :: 0 <= i < |parts| && Contains(parts[i].key, "://") }

  lemma {:induction false} QueryHolds(parts: seq<Part>)
    requires parts != []
    ensures Contains(QueryText(MasksOf(parts)), "://") <==> KeysHold(parts)
  {
    var n := |parts| - 1;
    var front, last := parts[..n], parts[n];
    assert parts == front + [last];
    PartHolds(last);
    hide Contains, PartText, MaskOf;
    assert PartTexts(MasksOf(parts)) == PartTexts(MasksOf(front)) + [PartText(MaskOf(last))];
    if n == 0 {
      JoinOne(PartText(MaskOf(last)), "&");
      assert PartTexts(MasksOf(parts)) == [PartText(MaskOf(last))];
    } else {
      QueryHolds(front);
      JoinSnoc(PartTexts(MasksOf(front)), PartText(MaskOf(last)), "&");
      Across(QueryText(MasksOf(front)), '&', PartText(MaskOf(last)));
      KeysSnoc(front, last);
    }
  }

  lemma KeysSnoc(front: seq<Part>, last: Part)
    ensures KeysHold(front + [last]) <==> KeysHold(front) || Contains(last.key, "://")
  {
    hide Contains;
    var parts := front + [last];
    if KeysHold(front) {
      var i :| 0 <= i < |front| && Contains(front[i].key, "://");
      assert parts[i] == front[i];
    }
    if Contains(last.key, "://") { assert parts[|front|] == last; }
  }

  function QueryParts(q: string): seq<Part> { PartsOf(Split(q, '&')) }

  lemma MaskedTwice(q: string)
    requires q != ""
    ensures MaskedQuery(MaskedQuery(q)) == MaskedQuery(q) != ""
    ensures Contains(MaskedQuery(q), "://") <==> KeysHold(QueryParts(q))
    ensures var parts := QueryParts(q);
            parts != [] && QueryText(parts) == q && MaskedQuery(q) == QueryText(MasksOf(parts))
  {
    QueryDissected(q);
    var parts := QueryParts(q);
    hide PartsOf, MaskedQuery, QueryText, Contains, KeysHold, Split;
    QueryIsMasked(parts);
    QueryHolds(parts);
    MasksArePlain(parts);
    QueryIsEmpty(parts);
    QueryIsEmpty(MasksOf(parts));
    QueryIsMasked(MasksOf(parts));
  }

  lemma MasksArePlain(parts: seq<Part>)
    requires parts != [] && forall i :: 0 <= i < |parts| ==> IsPart(parts[i])
    ensures var masks := MasksOf(parts);
            && masks != [] && (forall i :: 0 <= i < |masks| ==> IsPart(masks[i]))
            && MasksOf(masks) == masks && (masks == [Key("")] ==> parts == [Key("")])
  {
    assert MasksOf(parts)[0] == MaskOf(parts[0]);
  }

  /** The name of an opaque scheme before its separator, and no '?' before that. */
  lemma OpaqueHasSeparator(raw: string, name: string)
    requires IsLower(name) && name + "://" <= ToLower(raw)
    ensures Contains(Cut(raw, '?').before, "://")
  {
    PrefixStartsScheme(raw, name);
    var n := |name|;
    SeparatorIs(raw, n);
    forall i | 0 <= i < n + 3
      ensures raw[i] != '?'
    {
      if i < n { assert LowerChar(raw[i]) == ToLower(raw)[..n][i] == name[i]; }
    }
    hide ToLower, IndexOf;
    var before := Cut(raw, '?').before;
    assert |before| >= n + 3 && before <= raw;
    PrefixFound(before, n);
  }

  lemma NotOpaqueText(raw: string)
    requires !Contains(Cut(raw, '?').before, "://")
    ensures !("vmess://" <= ToLower(raw)) && !("ssr://" <= ToLower(raw))
  {
    hide Contains, Cut, ToLower;
    Names();
    if "vmess://" <= ToLower(raw) { OpaqueHasSeparator(raw, "vmess"); }
    if "ssr://" <= ToLower(raw) { OpaqueHasSeparator(raw, "ssr"); }
  }

  /** RedactURL on a text whose separators, if any, all come after its first '?'. */
  lemma LatePass(before: string, after: string)
    requires '?' !in before && !Contains(before, "://") && after != "" && Trimmed(before + "?" + after)
    ensures var raw := before + "?" + after;
            && (Contains(raw, "://") <==> Contains(after, "://"))
            && Redacted(raw) == if Contains(raw, "://") then before + "?" + MaskedQuery(after) else MaskMiddle(raw)
  {
    hide TrimSpace, Contains, MaskedQuery, ToLower, Cut, MaskMiddle, Trimmed;
    var raw := before + "?" + after;
    CutAt(before, '?', after);
    Across(before, '?', after);
    assert before + ['?'] + after == raw;
    TrimmedIsFixed(raw);
    NotOpaqueText(raw);
    NoUser(before);
    hide MaskedUser;
  }

  lemma NoUser(before: string)
    requires !Contains(before, "://")
    ensures MaskedUser(before) == before
  {
  }

  lemma MaskedIsTrimmed(before: string, after: string)
    requires NoSpace(before + "?" + after) && after != ""
    ensures Trimmed(before + "?" + MaskedQuery(after))
  {
    hide *;
    MaskedTwice(after);
    var raw, parts := before + "?" + after, QueryParts(after);
    NoSpaceInside(raw, 0, |raw|);
    assert raw[0..|raw|] == raw;
    SameStart(before, after, MaskedQuery(after));
    MaskedEnds(before, parts);
    SpacesMakeTrimmed(before + "?" + MaskedQuery(after));
  }

  lemma MaskedEnds(before: string, parts: seq<Part>)
    requires parts != [] && NoSpace(before + "?" + QueryText(parts))
    ensures SpaceSuffix(before + "?" + QueryText(MasksOf(parts))) == 0
  {
    hide SpaceSuffix, NoSpace, QueryText, LastFront;
    var masks, n := MasksOf(parts), |parts| - 1;
    assert masks[n] == MaskOf(parts[n]);
    QueryEnds(parts);
    QueryEnds(masks);
    var front, lead := before + "?" + LastFront(masks), before + "?" + LastFront(parts);
    FrontIsGraph(before, masks);
    Text.Regroup(before + "?", LastFront(masks), LastEnd(masks));
    Text.Regroup(before + "?", LastFront(parts), LastEnd(parts));
    if parts[n].Pair? {
      MaskEnds();
      SlotSuffix(front, MASK);
    } else {
      LastIsClean(lead, parts[n].key);
      SlotSuffix(front, parts[n].key);
    }
  }

  lemma LastIsClean(lead: string, key: string)
    requires NoSpace(lead + key)
    ensures SpaceSuffix(key) == 0
  {
    hide NoSpace, SpaceSuffix;
    NoSpaceInside(lead + key, |lead|, |lead + key|);
    assert (lead + key)[|lead|..|lead + key|] == key;
  }

  lemma MaskEnds()
    ensures SpaceSuffix(MASK) == 0
  {
  }

  lemma FrontIsGraph(before: string, parts: seq<Part>)
    requires parts != []
    ensures var t := before + "?" + LastFront(parts); t != "" && IsGraph(t[|t| - 1])
  {
    hide QueryText;
  }

  lemma SameStart(before: string, a: string, b: string)
    ensures SpacePrefix(before + "?" + a) == SpacePrefix(before + "?" + b)
  {
    PrefixBeforeGraph(before, "?" + a);
    PrefixBeforeGraph(before, "?" + b);
    hide SpacePrefix;
    assert before + "?" + a == before + ("?" + a) && before + "?" + b == before + ("?" + b);
  }

  lemma MiddleFixed(s: string)
    requires '?' in s
    ensures MaskMiddle(s) == s <==> |s| == 9 && s[4..7] == MASK
  {
    if |s| == 9 { assert s == s[..4] + s[4..7] + s[7..]; }
    if |s| > 8 && MaskMiddle(s) == s { assert MaskMiddle(s)[4..7] == MASK; }
  }

  /** A text without the separator is masked in the middle, and then masked no further. */
  lemma MiddleTwice(raw: string)
    requires NoSpace(raw) && !Contains(raw, "://")
    ensures Redacted(Redacted(raw)) == Redacted(raw)
  {
    hide TrimSpace, Contains, MaskedUser, MaskedQuery, ToLower, Cut, NoSpace, SpacePrefix, SpaceSuffix;
    if raw != "" {
      var s := MaskMiddle(raw);
      NoSpaceInside(raw, 0, |raw|);
      assert raw[0..|raw|] == raw;
      TrimmedIsFixed(raw);
      BeforeHasNone(raw);
      NotOpaqueText(raw);
      assert Redacted(raw) == s;
      MiddleIsPlain(raw);
      TrimmedIsFixed(s);
      BeforeHasNone(s);
      NotOpaqueText(s);
      assert MaskMiddle(s) == s;
    } else {
      NothingShown();
    }
  }

  lemma NothingShown()
    ensures Redacted("") == ""
  {
    assert TrimSpace("") == "";
  }

  lemma BeforeHasNone(raw: string)
    requires !Contains(raw, "://")
    ensures !Contains(Cut(raw, '?').before, "://")
  {
    hide Contains;
    var cut := Cut(raw, '?');
    if cut.found {
      assert raw == cut.before + ['?'] + cut.after;
      Across(cut.before, '?', cut.after);
    }
  }

  lemma MiddleIsPlain(raw: string)
    requires NoSpace(raw) && raw != "" && !Contains(raw, "://")
    ensures var s := MaskMiddle(raw); s != "" && Trimmed(s) && !Contains(s, "://")
  {
    hide Contains, NoSpace, SpacePrefix, SpaceSuffix;
    MaskEnds();
    MaskStarts();
    NotContained(MASK, "://");
    if |raw| > 8 {
      var n := |raw|;
      var first, last := raw[..4], raw[n - 2..];
      NoSpaceInside(raw, 0, 4);
      NoSpaceInside(raw, n - 2, n);
      assert raw[0..4] == first && raw[n - 2..n] == last;
      PartHasNone(raw, 4);
      assert first + "***" + last == first + ("***" + last);
      PrefixBeforeGraph(first, "***" + last);
      SuffixAfter(first + "***", last);
      Across(first, '*', "**" + last);
      Across("*", '*', last);
      NotContained("*", "://");
      TooShort(last);
      assert "*" + ['*'] + last == "**" + last && first + ['*'] + ("**" + last) == MaskMiddle(raw);
    }
  }

  lemma MaskStarts()
    ensures SpacePrefix(MASK) == 0
  {
  }

  lemma TooShort(s: string)
    requires |s| < 3
    ensures !Contains(s, "://")
  {
    ContainsIff(s);
    hide Contains;
  }

  lemma PartHasNone(raw: string, k: nat)
    requires k <= |raw|
    ensures Contains(raw[..k], "://") ==> Contains(raw, "://")
  {
    hide Contains;
    ContainsIff(raw);
    ContainsIff(raw[..k]);
    if HasSeparator(raw[..k]) {
      var i :| 0 <= i <= k - 3 && SeparatorAt(raw[..k], i);
      assert SeparatorAt(raw, i);
    }
  }

  /**
    What the text must be like: the separator before the first '?' or nowhere, or in some key of the
    query; or else a masked text that happens to have the shape of a text masked in the middle.
   */
  predicate ShownOnce(raw: string)
  {
    var cut := Cut(raw, '?');
    var masked := cut.before + "?" + MaskedQuery(cut.after);
    || Contains(cut.before, "://") || !Contains(raw, "://")
    || KeysHold(QueryParts(cut.after))
    || (|masked| == 9 && masked[4..7] == MASK)
  }

  /** On a text without white space, redacting twice shows what redacting once shows exactly in these cases. */
  lemma RedactTwiceIff(raw: string)
    requires NoSpace(raw)
    ensures Redacted(Redacted(raw)) == Redacted(raw) <==> ShownOnce(raw)
  {
    var cut := Cut(raw, '?');
    if Contains(cut.before, "://") {
      RedactTwice(raw);
    } else if !Contains(raw, "://") {
      MiddleTwice(raw);
    } else {
      LateTwice(raw);
    }
    hide Redacted, NoSpace, Contains, MaskedQuery, KeysHold, QueryParts, Cut;
  }

  lemma LateTwice(raw: string)
    requires NoSpace(raw) && !Contains(Cut(raw, '?').before, "://") && Contains(raw, "://")
    ensures Redacted(Redacted(raw)) == Redacted(raw) <==> ShownOnce(raw)
  {
    hide Redacted, Contains, MaskedQuery, KeysHold, QueryParts, NoSpace, Trimmed, MaskMiddle;
    var cut := Cut(raw, '?');
    var before, after := cut.before, cut.after;
    LateText(raw);
    NoSpaceInside(raw, 0, |raw|);
    assert raw[0..|raw|] == raw;
    SpacesMakeTrimmed(raw);
    LatePass(before, after);
    MaskedTwice(after);
    MaskedIsTrimmed(before, after);
    var shown := before + "?" + MaskedQuery(after);
    LatePass(before, MaskedQuery(after));
    assert shown[|before|] == '?';
    MiddleFixed(shown);
    hide Cut;
  }

  lemma SpacesMakeTrimmed(s: string)
    requires SpacePrefix(s) == 0 && SpaceSuffix(s) == 0
    ensures Trimmed(s)
  {
  }

  lemma LateText(raw: string)
    requires !Contains(Cut(raw, '?').before, "://") && Contains(raw, "://")
    ensures var cut := Cut(raw, '?'); '?' !in cut.before && cut.after != "" && raw == cut.before + "?" + cut.after
  {
    hide Contains;
    var cut := Cut(raw, '?');
    assert cut.found;
    assert raw == cut.before + ['?'] + cut.after;
    Across(cut.before, '?', cut.after);
    TooShort("");
  }

  /** With the separator only in a masked value the second pass no longer sees a URL. */
  lemma SeparatorInValue()
    ensures Redacted("f?u=a://b") == "f?u=***" && Redacted("f?u=***") == "***"
  {
    FirstPass();
    SecondPass();
  }

  lemma SecondPass()
    ensures Redacted("f?u=***") == "***"
  {
    hide TrimSpace, Contains, Cut, MaskedQuery, MaskedUser, ToLower;
    GraphIsTrimmed("f?u=***");
    NotOpaque("f?u=***");
    NotContained("f?u=***", "://");
  }

  lemma FirstPass()
    ensures Redacted("f?u=a://b") == "f?u=***"
  {
    hide TrimSpace, Contains, Cut, MaskedQuery, MaskedUser, ToLower;
    GraphIsTrimmed("f?u=a://b");
    NotOpaque("f?u=a://b");
    CutAt("f", '?', "u=a://b");
    assert "f" + ['?'] + "u=a://b" == "f?u=a://b";
    PrefixFound("f?u=a://b", 5);
    BareIsKept();
    ValueMasked();
    assert "f" + ("?" + "u=***") == "f?u=***";
  }

  lemma BareIsKept()
    ensures MaskedUser("f") == "f"
  {
    NotContained("f", "://");
    hide LastIndex, AuthorityEnd;
  }

  lemma ValueMasked()
    ensures MaskedQuery("u=a://b") == "u=***"
  {
    hide MaskPart, Split, Index;
    ValuePart();
    assert '&' !in "u=a://b";
    OnePart("u=a://b");
    assert MaskParts(["u=a://b"]) == ["u=***"];
    JoinOne("u=***", "&");
  }

  lemma OnePart(q: string)
    requires '&' !in q
    ensures Split(q, '&') == [q]
  {
  }

  lemma ValuePart()
    ensures MaskPart("u=a://b") == "u=***"
  {
    IndexAt("u", '=', "a://b");
    hide Index;
    assert "u" + ['='] + "a://b" == "u=a://b";
    assert "u=a://b"[..2] + MASK == "u=***";
  }

  lemma NotOpaque(s: string)
    requires s != "" && s[0] == 'f'
    ensures !("vmess://" <= ToLower(s)) && !("ssr://" <= ToLower(s))
  {
    assert ToLower(s)[0] == 'f';
  }

  lemma PrefixFound(s: string, i: nat)
    requires i + 3 <= |s| && SeparatorAt(s, i)
    ensures Contains(s, "://")
  {
    SeparatorIs(s, i);
  }
}
