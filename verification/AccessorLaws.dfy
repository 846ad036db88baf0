/**
  What the typed accessors promise about the values of a field bag (internal/generator/common.go): a number reads the
  same whichever way it is written down.
 */
module AccessorLaws {
  import opened Text
  import opened Decimal
  import opened Values
  import opened Accessors

  predicate Is64(n: int) { MIN_INT <= n <= MAX_INT }

  /** A float is cut off towards zero. */
  lemma CutOff(x: real)
    ensures x >= 0.0 ==> 0.0 <= Truncate(x) as real <= x < Truncate(x) as real + 1.0
    ensures x <= 0.0 ==> Truncate(x) as real - 1.0 < x <= Truncate(x) as real <= 0.0
  {
  }

  /** The values that stand for a whole number: itself, a float that is cut off to it, or its decimal text. */
  ghost predicate Stands(v: Value, n: int)
  {
    || v == Int(n)
    || (v.Float? && Truncate(v.x) == n)
    || (v.Str? && v.s == Itoa(n))
  }

  /** Read as a text or as a number, such a value is that number. */
  lemma NumberReads(c: Fields, k: string, n: int)
    requires k in c && Stands(c[k], n) && Is64(n)
    ensures CI(c, k) == n && CS(c, k) == Itoa(n) && Atoi(CS(c, k)) == Parsed(n, true)
  {
    AtoiItoa(n);
    ItoaIsTrimmed(n);
    hide Itoa, Atoi, TrimSpace;
  }

  lemma ItoaIsTrimmed(n: int)
    ensures TrimSpace(Itoa(n)) == Itoa(n)
  {
    assert IsDigits(Digits(if n < 0 then -n else n));
    GraphIsTrimmed(Itoa(n));
  }

  /** A text that is no number reads as zero, and so does anything that is neither text nor number. */
  lemma NoNumber(c: Fields, k: string)
    requires k !in c || !(c[k].Int? || c[k].Float? || (c[k].Str? && Atoi(TrimSpace(c[k].s)).ok))
    ensures CI(c, k) == 0
    ensures k !in c || !c[k].Str? ==> CS(c, k) == ""
  {
    hide TrimSpace, Atoi;
  }

  /** A switch is on for true, for a number that is not zero, and for four words in any case amid blanks. */
  lemma SwitchReads(c: Fields, k: string)
    ensures CB(c, k) <==> k in c && (c[k] == Bool(true) || (c[k].Int? && c[k].n != 0)
                                     || (c[k].Str? && IsYes(c[k].s)))
    ensures forall s :: IsYes(s) <==> exists w | w in ["1", "true", "yes", "on"] :: EqualFold(TrimSpace(s), w)
  {
    hide TrimSpace, ToLower;
    assert ToLower("1") == "1" && ToLower("true") == "true" && ToLower("yes") == "yes" && ToLower("on") == "on" by {
      LowerWords();
    }
    forall s
      ensures IsYes(s) <==> exists w | w in ["1", "true", "yes", "on"] :: EqualFold(TrimSpace(s), w)
    {
      var t := TrimSpace(s);
      if ToLower(t) == "1" { assert EqualFold(t, "1"); }
      if ToLower(t) == "true" { assert EqualFold(t, "true"); }
      if ToLower(t) == "yes" { assert EqualFold(t, "yes"); }
      if ToLower(t) == "on" { assert EqualFold(t, "on"); }
    }
  }

  lemma LowerWords()
    ensures ToLower("1") == "1" && ToLower("true") == "true" && ToLower("yes") == "yes" && ToLower("on") == "on"
  {
  }
}
