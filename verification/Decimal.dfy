/** strconv.Itoa and strconv.Atoi on 64-bit integers. Strings are byte strings, one char a byte. */
module Decimal {
  const MIN_INT: int := -0x8000_0000_0000_0000
  const MAX_INT: int := 0x7FFF_FFFF_FFFF_FFFF

  predicate IsDigit(c: char) { '0' <= c <= '9' }

  predicate IsDigits(s: string) { s != "" && forall i :: 0 <= i < |s| ==> IsDigit(s[i]) }

  function Digits(n: nat): (s: string)
    ensures IsDigits(s)
  {
    if n < 10 then ['0' + n as char] else Digits(n / 10) + ['0' + (n % 10) as char]
  }

  function Itoa(n: int): string
  {
    if n < 0 then "-" + Digits(-n) else Digits(n)
  }

  function DigitsValue(s: string): nat
    requires forall i :: 0 <= i < |s| ==> IsDigit(s[i])
  {
    if s == "" then 0 else
    assert IsDigit(s[|s| - 1]);
    10 * DigitsValue(s[..|s| - 1]) + (s[|s| - 1] - '0') as nat
  }

  /** The value and whether err is nil. A syntax error gives 0, a range error the nearest 64-bit integer. */
  datatype Parsed = Parsed(value: int, ok: bool)

  function Atoi(s: string): Parsed
  {
    var body := if s != "" && (s[0] == '-' || s[0] == '+') then s[1..] else s;
    if !IsDigits(body) then Parsed(0, false)
    else
      var n: int := if s[0] == '-' then 0 - DigitsValue(body) else DigitsValue(body);
      if n > MAX_INT then Parsed(MAX_INT, false)
      else if n < MIN_INT then Parsed(MIN_INT, false)
      else Parsed(n, true)
  }

  lemma {:induction false} DigitsValueOf(n: nat)
    ensures DigitsValue(Digits(n)) == n
    decreases n
  {
    if n >= 10 {
      DigitsValueOf(n / 10);
      assert Digits(n)[..|Digits(n)| - 1] == Digits(n / 10);
    } else {
      assert Digits(n)[..0] == "";
    }
  }

  /** Every 64-bit integer reads back as itself. */
  lemma AtoiItoa(n: int)
    requires MIN_INT <= n <= MAX_INT
    ensures Atoi(Itoa(n)) == Parsed(n, true)
  {
    var k := if n < 0 then -n else n;
    DigitsValueOf(k);
    assert IsDigit(Digits(k)[0]);
    if n < 0 { assert Itoa(n)[1..] == Digits(k); }
  }

  lemma ItoaInjective(m: int, n: int)
    requires Itoa(m) == Itoa(n)
    ensures m == n
  {
    var a, b := if m < 0 then -m else m, if n < 0 then -n else n;
    DigitsValueOf(a);
    DigitsValueOf(b);
    assert IsDigit(Digits(a)[0]) && IsDigit(Digits(b)[0]);
    if m < 0 { assert Itoa(m)[1..] == Digits(a); }
    if n < 0 { assert Itoa(n)[1..] == Digits(b); }
  }
}
