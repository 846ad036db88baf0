/** The guards that tell one subscription format from another (internal/parser). */
module Formats {
  import opened Text

  predicate LooksLikeClash(text: string) { "proxies:" <= text || Contains(text, "\nproxies:") }

  predicate LooksLikeSingbox(text: string)
  {
    var t := TrimSpace(text);
    && ("{" <= t || "[" <= t)
    && (Contains(t, "\"outbounds\"") || (Contains(t, "\"server_port\"") && Contains(t, "\"type\"")))
  }

  const KNOWN_SURGE_TYPES: set<string> := {
    "ss", "custom", "vmess", "vless", "trojan", "hysteria2", "hysteria", "tuic",
    "snell", "socks5", "socks5-tls", "http", "https", "wireguard"}

  predicate IsSurgeLine(line: string)
  {
    || ToLower(TrimSpace(line)) == "[proxy]"
    || (var i := Index(line, '=');
        i >= 0 &&
        var parts := Split(TrimSpace(line[i + 1..]), ',');
        |parts| >= 3 && ToLower(TrimSpace(parts[0])) in KNOWN_SURGE_TYPES)
  }

  predicate AnySurgeLine(lines: seq<string>) { exists i :: 0 <= i < |lines| && IsSurgeLine(lines[i]) }

  predicate LooksLikeSurge(text: string)
  {
    var t := TrimSpace(text);
    && !("{" <= t) && !("[\"" <= t)
    && !LooksLikeClash(t)
    && AnySurgeLine(Split(t, '\n'))
  }

  method IsSurge(text: string) returns (r: bool)
    ensures r == LooksLikeSurge(text)
  {
    hide IsSurgeLine, TrimSpace, LooksLikeClash, Split;
    var t := TrimSpace(text);
    if "{" <= t || ("[" <= t && "[\"" <= t) {
      return false;
    }
    if LooksLikeClash(t) {
      return false;
    }
    var lines := Split(t, '\n');
    for i := 0 to |lines|
      invariant forall k :: 0 <= k < i ==> !IsSurgeLine(lines[k])
    {
      if IsSurgeLine(lines[i]) {
        return true;
      }
    }
    return false;
  }

  predicate LooksStructured(text: string) { LooksLikeClash(text) || LooksLikeSingbox(text) || LooksLikeSurge(text) }

  // ---------- text that is none of them ----------

  /** Nothing after the first '=' that a comma could split, and not the section header. */
  lemma NotSurgeLine(line: string)
    requires '=' in line ==> ',' !in line[Index(line, '=') + 1..]
    requires ToLower(TrimSpace(line)) != "[proxy]"
    ensures !IsSurgeLine(line)
  {
    var i := Index(line, '=');
    if i >= 0 {
      var rest := line[i + 1..];
      TrimSpaceWithin(rest, ',');
      hide TrimSpace;
      assert Split(TrimSpace(rest), ',') == [TrimSpace(rest)];
    }
  }

  /** A line whose first character is not the one of "proxies:". */
  lemma {:induction false} NoClashHeader(lines: seq<string>)
    requires |lines| >= 1 && forall i :: 0 <= i < |lines| ==> lines[i] != "" && lines[i][0] != 'p' && '\n' !in lines[i]
    ensures !LooksLikeClash(Join(lines, "\n"))
  {
    var text := Join(lines, "\n");
    BreaksStartLines(lines);
    JoinStarts(lines);
    var r := IndexOf(text, "\nproxies:");
    hide Join;
    if r >= 0 { PrefixStarts(text[r..]); }
  }

  lemma PrefixStarts(s: string)
    requires "\nproxies:" <= s
    ensures |s| >= 2 && s[0] == '\n' && s[1] == 'p'
  {
  }

  lemma JoinStarts(lines: seq<string>)
    requires |lines| >= 1 && lines[0] != ""
    ensures Join(lines, "\n") != "" && Join(lines, "\n")[0] == lines[0][0]
  {
  }

  /** Every line break of joined lines is followed by the start of a line. */
  lemma {:induction false} BreaksStartLines(lines: seq<string>)
    requires |lines| >= 1 && forall i :: 0 <= i < |lines| ==> lines[i] != "" && lines[i][0] != 'p' && '\n' !in lines[i]
    ensures var text := Join(lines, "\n"); forall k :: 0 <= k < |text| - 1 && text[k] == '\n' ==> text[k + 1] != 'p'
  {
    if |lines| > 1 {
      BreaksStartLines(lines[1..]);
      JoinStarts(lines[1..]);
      var rest := Join(lines[1..], "\n");
      var text := Join(lines, "\n");
      assert text == lines[0] + "\n" + rest;
      assert forall k :: 0 <= k < |lines[0]| ==> text[k] == lines[0][k];
      forall k | 0 <= k < |text| - 1 && text[k] == '\n'
        ensures text[k + 1] != 'p'
      {
        if k > |lines[0]| {
          assert text[k] == rest[k - |lines[0]| - 1] && text[k + 1] == rest[k - |lines[0]|];
        } else {
          assert text[k + 1] == rest[0] == lines[1][0];
        }
      }
    }
  }
}
