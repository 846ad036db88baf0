/** Small readers the link parsers share (internal/parser/util.go, internal/parser/ss.go). */
module LinkText {
  import opened Text
  import opened Decimal

  function AtoiPort(s: string): int { Atoi(TrimSpace(s)).value }

  datatype HostPort = HostPort(host: string, port: int)

  function SplitHostPort(hostport: string): HostPort
  {
    var s := TrimSpace(hostport);
    var end := Index(s, ']');
    if "[" <= s && end >= 1 then
      var rest := s[end + 1..];
      HostPort(s[1..end], if ":" <= rest then AtoiPort(rest[1..]) else 0)
    else
      var i := LastIndex(s, ':');
      if i >= 0 then HostPort(s[..i], AtoiPort(s[i + 1..])) else HostPort(s, 0)
  }

  datatype Cred = Cred(cipher: string, password: string)

  function SplitCred(s: string): Cred
  {
    var cut := Cut(s, ':');
    if cut.found then Cred(cut.before, cut.after) else Cred(s, "")
  }

  predicate IsPort(n: int) { MIN_INT <= n <= MAX_INT && n != 0 }

  lemma ItoaChars(n: int)
    ensures Itoa(n) != "" && forall i :: 0 <= i < |Itoa(n)| ==> IsDigit(Itoa(n)[i]) || Itoa(n)[i] == '-'
  {
    assert IsDigits(Digits(if n < 0 then -n else n));
  }

  lemma AtoiPortOf(n: int)
    requires MIN_INT <= n <= MAX_INT
    ensures AtoiPort(Itoa(n)) == n
  {
    ItoaChars(n);
    hide Itoa;
    GraphIsTrimmed(Itoa(n));
    AtoiItoa(n);
  }

  /** A host that starts neither with white space nor with a bracket. */
  predicate HostStarts(host: string) { host != "" && host[0] != '[' && SpacePrefix(host) == 0 }

  lemma StartsStill(host: string, more: string)
    requires HostStarts(host) && more != "" && more[0] == ':'
    ensures SpacePrefix(host + more) == 0
  {
  }

  /** Printing a host and a port and splitting them again gives them back, whatever colons the host holds. */
  lemma SplitPrinted(host: string, port: int)
    requires HostStarts(host) && MIN_INT <= port <= MAX_INT
    ensures SplitHostPort(host + ":" + Itoa(port)) == HostPort(host, port)
  {
    var s := host + ":" + Itoa(port);
    hide AtoiPort;
    PrintedIsTrimmed(host, port);
    ItoaChars(port);
    AtoiPortOf(port);
    hide Itoa, TrimSpace, Trimmed;
    LastIndexAt(host, ':', Itoa(port));
    assert host + [':'] + Itoa(port) == s;
    hide LastIndex;
    assert s[..|host|] == host && s[|host| + 1..] == Itoa(port) && s[0] == host[0];
  }

  lemma PrintedIsTrimmed(host: string, port: int)
    requires HostStarts(host)
    ensures TrimSpace(host + ":" + Itoa(port)) == host + ":" + Itoa(port)
  {
    var digits := Itoa(port);
    ItoaChars(port);
    hide Itoa;
    var s := host + ":" + digits;
    assert s == host + (":" + digits);
    StartsStill(host, ":" + digits);
    hide SpacePrefix;
    assert IsGraph(s[|s| - 1]);
    assert SpaceSuffix(s) == 0;
    hide SpaceSuffix;
    TrimmedIsFixed(s);
    hide TrimSpace;
  }
}
