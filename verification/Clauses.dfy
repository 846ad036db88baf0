/**
  Two rule lists under first-match semantics, clause by clause the same but for some tests: where one
  list asks for a key, the other asks a list. Which tests hold of a packet is open: any set may.
 */
module Clauses {
  import opened Wrappers

  datatype Test = All | Key(typ: string, value: string, flag: string) | List(url: string)

  datatype Clause = Clause(test: Test, group: string)

  /** The tests that hold, All apart. */
  type Facts = Test -> bool

  predicate Holds(t: Test, facts: Facts) { t == All || facts(t) }

  /** The first clause whose test holds, |cs| when there is none. */
  function First(cs: seq<Clause>, facts: Facts): (i: nat)
    ensures i <= |cs|
    ensures i < |cs| ==> Holds(cs[i].test, facts)
    ensures forall j :: 0 <= j < i ==> !Holds(cs[j].test, facts)
  {
    if cs == [] then 0 else
    var n := |cs| - 1;
    var i := First(cs[..n], facts);
    if i < n || Holds(cs[n].test, facts) then i else |cs|
  }

  function Decision(cs: seq<Clause>, facts: Facts): Option<string>
  {
    var i := First(cs, facts);
    if i < |cs| then Some(cs[i].group) else None
  }

  /** No earlier clause has clause j's test. */
  predicate Fresh(cs: seq<Clause>, j: nat)
    requires j < |cs|
  {
    forall i :: 0 <= i < j ==> cs[i].test != cs[j].test
  }

  function FirstAll(cs: seq<Clause>): (k: nat)
    ensures k <= |cs| && (k < |cs| ==> cs[k].test == All)
    ensures forall j :: 0 <= j < k ==> cs[j].test != All
  {
    if cs == [] then 0 else
    var n := |cs| - 1;
    var k := FirstAll(cs[..n]);
    if k < n || cs[n].test == All then k else |cs|
  }

  /** The lists differ in keys only, each replaced by one and the same list, and left nowhere in b. */
  ghost predicate Twins(a: seq<Clause>, b: seq<Clause>)
  {
    && |a| == |b|
    && (forall i :: 0 <= i < |a| ==> a[i].group == b[i].group)
    && (forall i :: 0 <= i < |a| ==> a[i].test == b[i].test || (a[i].test.Key? && b[i].test.List?))
    && (forall i, j :: 0 <= i < |a| && 0 <= j < |a| && a[i].test != b[i].test ==> b[j].test != a[i].test)
    && (forall i, j :: 0 <= i < |a| && 0 <= j < |a| && a[i].test == a[j].test ==> b[i].test == b[j].test)
  }

  function FirstClash(a: seq<Clause>, b: seq<Clause>): (i: nat)
    requires |a| == |b|
    ensures i <= |a| && (i < |a| ==> a[i].test != b[i].test)
    ensures forall j :: 0 <= j < i ==> a[j].test == b[j].test
  {
    if a == [] then 0 else
    var n := |a| - 1;
    var i := FirstClash(a[..n], b[..n]);
    if i < n || a[n].test != b[n].test then i else |a|
  }

  /**
    No clash before the first catch-all, or every clause from the first clash to the catch-all that
    can still decide something goes to the group of that clash.
   */
  predicate Harmless(a: seq<Clause>, b: seq<Clause>)
    requires |a| == |b|
  {
    var i, k := FirstClash(a, b), FirstAll(a);
    i < k ==> k < |a| && forall j :: i <= j <= k && Fresh(a, j) ==> a[j].group == a[i].group
  }

  ghost predicate Agree(a: seq<Clause>, b: seq<Clause>)
  {
    forall facts: Facts :: Decision(a, facts) == Decision(b, facts)
  }

  lemma FirstIs(cs: seq<Clause>, facts: Facts, i: nat)
    requires i < |cs| && Holds(cs[i].test, facts) && forall j :: 0 <= j < i ==> !Holds(cs[j].test, facts)
    ensures Decision(cs, facts) == Some(cs[i].group)
  {
    var f := First(cs, facts);
    assert f == i;
  }

  /** A test that an earlier clause of a has, an earlier clause of b has. */
  lemma StaleStays(a: seq<Clause>, b: seq<Clause>, j: nat)
    requires Twins(a, b) && j < |a| && Fresh(b, j)
    ensures Fresh(a, j)
  {
  }

  /** The first clause to hold is fresh. */
  lemma FirstIsFresh(cs: seq<Clause>, facts: Facts)
    ensures var i := First(cs, facts); i < |cs| ==> Fresh(cs, i)
  {
  }

  lemma SameCatchAll(a: seq<Clause>, b: seq<Clause>)
    requires Twins(a, b)
    ensures FirstAll(a) == FirstAll(b)
  {
  }

  lemma HarmlessAgrees(a: seq<Clause>, b: seq<Clause>, facts: Facts)
    requires Twins(a, b) && Harmless(a, b)
    ensures Decision(a, facts) == Decision(b, facts)
  {
    var i, k, p, q := FirstClash(a, b), FirstAll(a), First(a, facts), First(b, facts);
    SameCatchAll(a, b);
    FirstIsFresh(a, facts);
    FirstIsFresh(b, facts);
    if q < |b| { StaleStays(a, b, q); }
    if p < i || q < i {
      assert p == q;
    } else if i < k {
      assert p <= k && q <= k;
      assert a[p].group == a[i].group && a[q].group == a[i].group;
    } else if k < |a| {
      assert p == q == k;
    }
    hide Twins;
  }

  function These(x: Test, y: Test): Facts { t => t == x || t == y }

  lemma ClashIsFresh(a: seq<Clause>, b: seq<Clause>)
    requires Twins(a, b) && FirstClash(a, b) < |a|
    ensures Fresh(a, FirstClash(a, b))
  {
  }

  /** With the key of the first clash alone, a goes to its group and b to the catch-all. */
  lemma CatchAllMatches(a: seq<Clause>, b: seq<Clause>)
    requires Twins(a, b) && Agree(a, b) && FirstClash(a, b) < FirstAll(a)
    ensures FirstAll(a) < |a| && a[FirstAll(a)].group == a[FirstClash(a, b)].group
  {
    var i, k := FirstClash(a, b), FirstAll(a);
    var facts := These(a[i].test, a[i].test);
    ClashIsFresh(a, b);
    SameCatchAll(a, b);
    FirstIs(a, facts, i);
    assert Decision(b, facts) == Decision(a, facts);
    if k < |a| { FirstIs(b, facts, k); }
  }

  /** A clause between them whose test is new to b: the key of the clash and this test tell the lists apart. */
  lemma NewInBoth(a: seq<Clause>, b: seq<Clause>, j: nat)
    requires Twins(a, b) && Agree(a, b) && FirstClash(a, b) < j < FirstAll(a) && Fresh(b, j)
    ensures a[j].group == a[FirstClash(a, b)].group
  {
    var i := FirstClash(a, b);
    var facts := These(a[i].test, b[j].test);
    ClashIsFresh(a, b);
    SameCatchAll(a, b);
    forall k | 0 <= k < i
      ensures !Holds(a[k].test, facts)
    {
      assert a[k].test == b[k].test;
    }
    FirstIs(a, facts, i);
    FirstIs(b, facts, j);
    assert Decision(b, facts) == Decision(a, facts);
  }

  /** One whose test b has met before: that test alone tells them apart. */
  lemma NewInFirst(a: seq<Clause>, b: seq<Clause>, j: nat)
    requires Twins(a, b) && Agree(a, b) && FirstClash(a, b) < j < FirstAll(a) && Fresh(a, j) && !Fresh(b, j)
    ensures a[j].group == a[FirstClash(a, b)].group
  {
    var i, k := FirstClash(a, b), FirstAll(a);
    var facts := These(a[j].test, a[j].test);
    SameCatchAll(a, b);
    CatchAllMatches(a, b);
    FirstIs(a, facts, j);
    assert Decision(b, facts) == Decision(a, facts);
    if a[j].test != b[j].test {
      FirstIs(b, facts, k);
    } else {
      var h := First(b, facts);
      assert h < j && b[h].test == a[j].test;
      FirstIsFresh(b, facts);
      assert h >= i;
      if h > i { NewInBoth(a, b, h); }
    }
  }

  /** The lists decide alike for every packet exactly when their clashes are harmless. */
  lemma AgreeIff(a: seq<Clause>, b: seq<Clause>)
    requires Twins(a, b)
    ensures Agree(a, b) <==> Harmless(a, b)
  {
    if Harmless(a, b) {
      forall facts: Facts
        ensures Decision(a, facts) == Decision(b, facts)
      {
        HarmlessAgrees(a, b, facts);
      }
    }
    var i, k := FirstClash(a, b), FirstAll(a);
    if Agree(a, b) && i < k {
      CatchAllMatches(a, b);
      forall j | i <= j <= k && Fresh(a, j)
        ensures a[j].group == a[i].group
      {
        if i < j < k {
          if Fresh(b, j) { NewInBoth(a, b, j); } else { NewInFirst(a, b, j); }
        }
      }
    }
    hide Twins, Decision, Fresh;
  }
}
