/**
  Making display names distinct (internal/generator/common.go, uniquifyNames): a name already
  taken gets the first free suffix from 2 upward. The probe has no bound of its own; it stops
  because suffixes are injective in the number and only finitely many names are taken.
 */
module UniqueNames {
  import opened Sets
  import opened Decimal
  import opened Values

  function Suffixed(name: string, k: nat): string { name + " " + Itoa(k) }

  function Taken(names: seq<string>): set<string> { set x | x in names }

  function Candidates(name: string, k: nat): set<string> { set j: nat | 2 <= j < k :: Suffixed(name, j) }

  lemma SuffixInjective(name: string, j: nat, k: nat)
    requires Suffixed(name, j) == Suffixed(name, k)
    ensures j == k
  {
    assert Suffixed(name, j)[|name| + 1..] == Itoa(j);
    assert Suffixed(name, k)[|name| + 1..] == Itoa(k);
    ItoaInjective(j, k);
  }

  lemma {:induction false} CandidatesCount(name: string, k: nat)
    requires k >= 2
    ensures |Candidates(name, k)| == k - 2
  {
    hide Suffixed;
    if k == 2 {
      assert Candidates(name, 2) == {};
    } else {
      CandidatesCount(name, k - 1);
      forall j: nat | 2 <= j < k - 1
        ensures Suffixed(name, j) != Suffixed(name, k - 1)
      {
        if Suffixed(name, j) == Suffixed(name, k - 1) { SuffixInjective(name, j, k - 1); }
      }
      assert Candidates(name, k) == Candidates(name, k - 1) + {Suffixed(name, k - 1)};
    }
  }

  /** If every suffix below k is taken, there are at least k - 2 taken names. */
  lemma ProbesAreTaken(name: string, taken: set<string>, k: nat)
    requires k >= 2 && forall j :: 2 <= j < k ==> Suffixed(name, j) in taken
    ensures k - 2 <= |taken|
  {
    CandidatesCount(name, k);
    assert taken == Candidates(name, k) + (taken - Candidates(name, k));
  }

  /** The least number from k upward whose suffix is free. */
  function LeastFree(name: string, taken: set<string>, k: nat): (free: nat)
    requires k >= 2 && forall j :: 2 <= j < k ==> Suffixed(name, j) in taken
    ensures free >= k && Suffixed(name, free) !in taken
    ensures forall j :: 2 <= j < free ==> Suffixed(name, j) in taken
    decreases |taken| + 2 - k
  {
    ProbesAreTaken(name, taken, k);
    if Suffixed(name, k) !in taken then k else
    ProbesAreTaken(name, taken, k + 1);
    LeastFree(name, taken, k + 1)
  }

  function Choose(name: string, taken: set<string>): string
  {
    if name !in taken then name else Suffixed(name, LeastFree(name, taken, 2))
  }

  /** The names the list ends up with. */
  function Unique(names: seq<string>): (r: seq<string>)
    ensures |r| == |names|
  {
    if names == [] then [] else
    var before := Unique(names[..|names| - 1]);
    before + [Choose(names[|names| - 1], Taken(before))]
  }

  ghost predicate Distinct<T>(xs: seq<T>) { forall i, j :: 0 <= i < j < |xs| ==> xs[i] != xs[j] }

  lemma ChooseKeeps(name: string, taken: set<string>)
    ensures Choose(name, taken) == name <==> name !in taken
  {
  }

  lemma UniqueLast(before: seq<string>, x: string)
    ensures Unique(before + [x]) == Unique(before) + [Choose(x, Taken(Unique(before)))]
  {
    assert (before + [x])[..|before|] == before;
  }

  lemma {:induction false} UniquePrefix(names: seq<string>, i: nat)
    requires i <= |names|
    ensures Unique(names)[..i] == Unique(names[..i])
    decreases |names|
  {
    if i < |names| {
      var n := |names| - 1;
      UniquePrefix(names[..n], i);
      assert names[..n][..i] == names[..i];
    } else {
      assert names[..i] == names;
    }
  }

  /** Name i is kept unless an earlier node ends up with it, and is then given the least free suffix. */
  lemma UniqueAt(names: seq<string>, i: nat)
    requires i < |names|
    ensures Unique(names)[i] == Choose(names[i], Taken(Unique(names)[..i]))
    ensures Unique(names)[i] == names[i] <==> names[i] !in Unique(names)[..i]
  {
    hide Unique, Choose;
    UniquePrefix(names, i + 1);
    UniquePrefix(names, i);
    assert names[..i + 1] == names[..i] + [names[i]];
    UniqueLast(names[..i], names[i]);
    ChooseKeeps(names[i], Taken(Unique(names)[..i]));
    assert Unique(names)[i] == Unique(names)[..i + 1][i];
  }

  lemma {:induction false} UniqueIsDistinct(names: seq<string>)
    ensures Distinct(Unique(names))
  {
    if names != [] {
      var n := |names| - 1;
      UniqueIsDistinct(names[..n]);
      var before := Unique(names[..n]);
      forall i | 0 <= i < n
        ensures before[i] != Unique(names)[n]
      {
        assert before[i] in Taken(before);
      }
    }
  }

  /** Distinct names are left alone, so a second pass changes nothing. */
  lemma {:induction false} DistinctIsUnchanged(names: seq<string>)
    requires Distinct(names)
    ensures Unique(names) == names
  {
    if names != [] {
      var n := |names| - 1;
      DistinctIsUnchanged(names[..n]);
    }
  }

  lemma UniqueTwice(names: seq<string>)
    ensures Unique(Unique(names)) == Unique(names)
  {
    UniqueIsDistinct(names);
    DistinctIsUnchanged(Unique(names));
  }

  // ---------- who keeps a name ----------

  /** Every node that is the first in the list to carry its name keeps it. */
  ghost predicate FirstHoldersKeep(names: seq<string>)
  {
    forall i :: 0 <= i < |names| && names[i] !in names[..i] ==> Unique(names)[i] == names[i]
  }

  function Count(names: seq<string>, name: string): nat { multiset(names)[name] }

  /** The suffixes of name below k that no input name spells out. */
  function Gaps(names: seq<string>, name: string, k: nat): set<nat>
  {
    set j: nat | 2 <= j < k && Suffixed(name, j) !in names
  }

  /** The name's repeats outnumber the suffixes left below k, so one of them is given k. */
  predicate Crowded(names: seq<string>, name: string, k: nat) { Count(names, name) > 1 + |Gaps(names, name, k)| }

  /** The condition on the input alone: a name that spells a suffix comes before too many repeats need it. */
  ghost predicate NoneCrowded(names: seq<string>)
  {
    forall i, name: string, k: nat ::
      0 <= i < |names| && k >= 2 && names[i] == Suffixed(name, k) && names[i] !in names[..i] ==>
          !Crowded(names[..i], name, k)
  }

  lemma {:induction false} DigitsHaveNoSpace(n: nat)
    ensures Itoa(n) != "" && ' ' !in Itoa(n)
  {
    assert forall i :: 0 <= i < |Digits(n)| ==> IsDigit(Digits(n)[i]);
  }

  lemma SuffixShape(name: string, k: nat)
    ensures var s := Suffixed(name, k);
            |name| < |s| && s[..|name|] == name && s[|name|] == ' ' && forall i :: |name| < i < |s| ==> s[i] != ' '
  {
    DigitsHaveNoSpace(k);
    var s := Suffixed(name, k);
    forall i | |name| < i < |s|
      ensures s[i] != ' '
    {
      assert s[i] == Itoa(k)[i - |name| - 1];
    }
    hide Itoa;
  }

  /** A suffixed name is one name's and one number's. */
  lemma SuffixedOnce(a: string, j: nat, b: string, k: nat)
    requires Suffixed(a, j) == Suffixed(b, k)
    ensures a == b && j == k
  {
    SuffixShape(a, j);
    SuffixShape(b, k);
    hide Suffixed;
    SuffixInjective(a, j, k);
  }

  lemma {:induction false} NamesAreTaken(names: seq<string>)
    requires FirstHoldersKeep(names)
    ensures forall i :: 0 <= i < |names| ==> names[i] in Unique(names)
  {
    forall i | 0 <= i < |names|
      ensures names[i] in Unique(names)
    {
      FirstHolder(names, i);
    }
  }

  lemma {:induction false} FirstHolder(names: seq<string>, i: nat)
    requires FirstHoldersKeep(names) && i < |names|
    ensures names[i] in Unique(names)
  {
    hide Unique;
    if names[i] in names[..i] {
      var j :| 0 <= j < i && names[j] == names[i];
      FirstHolder(names, j);
    } else {
      assert Unique(names)[i] in Unique(names);
    }
  }

  lemma KeepBefore(before: seq<string>, x: string)
    ensures FirstHoldersKeep(before + [x]) <==> FirstHoldersKeep(before) && (x !in before ==> x !in Unique(before))
  {
    hide Unique, Choose;
    UniqueLast(before, x);
    ChooseKeeps(x, Taken(Unique(before)));
    var names := before + [x];
    assert forall i :: 0 <= i < |before| ==> names[..i] == before[..i] && names[i] == before[i];
    assert names[..|before|] == before;
  }

  lemma MoreGaps(names: seq<string>, name: string, j: nat, k: nat)
    requires j < k
    ensures |Gaps(names, name, j)| + (if 2 <= j && Suffixed(name, j) !in names then 1 else 0) <= |Gaps(names, name, k)|
    ensures k == j + 1 ==>
      |Gaps(names, name, k)| == |Gaps(names, name, j)| + if 2 <= j && Suffixed(name, j) !in names then 1 else 0
  {
    hide Suffixed;
    var below := if 2 <= j && Suffixed(name, j) !in names then Gaps(names, name, j) + {j} else Gaps(names, name, j);
    assert below <= Gaps(names, name, k);
    SubsetSize(below, Gaps(names, name, k));
    assert k == j + 1 ==> below == Gaps(names, name, k);
  }

  /** While every number below `free` is taken, repeats have filled all the gaps below it. */
  lemma {:induction false} GapsFilled(names: seq<string>, name: string, free: nat, m: nat)
    requires 2 <= m <= free && Count(names, name) > 0
    requires forall j :: 2 <= j < free ==> Suffixed(name, j) in names || Crowded(names, name, j)
    ensures Count(names, name) >= 1 + |Gaps(names, name, m)|
  {
    if m > 2 {
      GapsFilled(names, name, free, m - 1);
      MoreGaps(names, name, m - 1, m);
      assert Suffixed(name, m - 1) in names || Crowded(names, name, m - 1);
    } else {
      assert Gaps(names, name, 2) == {};
    }
  }

  /** A suffix nobody spelled out is in use exactly when the repeats of its name have filled the gaps before it. */
  ghost predicate GivenAre(names: seq<string>, name: string)
  {
    forall k: nat :: k >= 2 && Suffixed(name, k) !in names ==>
        (Suffixed(name, k) in Unique(names) <==> Crowded(names, name, k))
  }

  lemma {:induction false} SuffixesGiven(names: seq<string>, name: string)
    requires FirstHoldersKeep(names)
    ensures GivenAre(names, name)
    decreases |names|
  {
    if names != [] {
      var n := |names| - 1;
      var before, x := names[..n], names[n];
      assert names == before + [x];
      KeepBefore(before, x);
      SuffixesGiven(before, name);
      hide FirstHoldersKeep, Crowded, Unique;
      forall k: nat | k >= 2 && Suffixed(name, k) !in names
        ensures Suffixed(name, k) in Unique(names) <==> Crowded(names, name, k)
      {
        if x == name {
          RepeatGiven(before, name, k);
        } else {
          OtherGiven(before, x, name, k);
        }
      }
    }
  }

  /** Another name is added: it gives no suffix of this name, and takes a gap only below which there is room. */
  lemma OtherGiven(before: seq<string>, x: string, name: string, k: nat)
    requires FirstHoldersKeep(before) && k >= 2 && x != name && Suffixed(name, k) !in before + [x]
    requires x !in before ==> x !in Unique(before)
    requires GivenAre(before, name)
    ensures Suffixed(name, k) in Unique(before + [x]) <==> Crowded(before + [x], name, k)
  {
    hide Unique, Suffixed, Choose, FirstHoldersKeep;
    GivesNothing(before, x, name, k);
    if j: nat :| 2 <= j < k && x == Suffixed(name, j) && x !in before {
      FillsGap(before, name, j, k);
      assert !Crowded(before, name, j);
    } else {
      assert Gaps(before + [x], name, k) == Gaps(before, name, k);
    }
  }

  lemma GivesNothing(before: seq<string>, x: string, name: string, k: nat)
    requires x != name && x != Suffixed(name, k)
    ensures Suffixed(name, k) in Unique(before + [x]) <==> Suffixed(name, k) in Unique(before)
  {
    UniqueLast(before, x);
    hide Unique;
    var taken := Taken(Unique(before));
    if Choose(x, taken) == Suffixed(name, k) {
      SuffixedOnce(x, LeastFree(x, taken, 2), name, k);
    }
  }

  lemma FillsGap(before: seq<string>, name: string, j: nat, k: nat)
    requires 2 <= j < k && Suffixed(name, j) !in before
    ensures Gaps(before + [Suffixed(name, j)], name, k) == Gaps(before, name, k) - {j}
    ensures |Gaps(before, name, j)| < |Gaps(before, name, k)|
  {
    MoreGaps(before, name, j, k);
    hide Suffixed;
    forall i: nat | Suffixed(name, i) == Suffixed(name, j)
      ensures i == j
    {
      SuffixInjective(name, i, j);
    }
  }

  /** One more repeat is given the first gap that is left. */
  lemma RepeatGiven(before: seq<string>, name: string, k: nat)
    requires FirstHoldersKeep(before) && k >= 2 && Suffixed(name, k) !in before
    requires name !in before ==> name !in Unique(before)
    requires GivenAre(before, name)
    ensures Suffixed(name, k) in Unique(before + [name]) <==> Crowded(before + [name], name, k)
  {
    UniqueLast(before, name);
    NamesAreTaken(before);
    assert Suffixed(name, k) != name && forall j :: Suffixed(name, j) != name;
    assert Gaps(before + [name], name, k) == Gaps(before, name, k);
    hide Unique, Suffixed, FirstHoldersKeep;
    if name in before {
      var taken := Taken(Unique(before));
      var free := LeastFree(name, taken, 2);
      hide LeastFree;
      GapsFilled(before, name, free, free);
      if k == free {
      } else if Choose(name, taken) == Suffixed(name, k) {
        SuffixInjective(name, free, k);
      } else if k > free {
        MoreGaps(before, name, free, k);
      }
    }
  }

  /** An earlier node that ends up with a name nobody spelled out got it as a suffix. */
  lemma {:induction false} GivenHasBase(names: seq<string>, x: string) returns (name: string, k: nat)
    requires x in Unique(names) && x !in names
    ensures k >= 2 && x == Suffixed(name, k)
    decreases |names|
  {
    var n := |names| - 1;
    var taken := Taken(Unique(names[..n]));
    if x in Unique(names[..n]) {
      name, k := GivenHasBase(names[..n], x);
    } else {
      name, k := names[n], LeastFree(names[n], taken, 2);
    }
  }

  /**
    Every first holder keeps its name exactly when no name in the list spells a suffix that the repeats
    before it have already reached.
   */
  lemma {:induction false} FirstHoldersKeepIff(names: seq<string>)
    ensures FirstHoldersKeep(names) <==> NoneCrowded(names)
  {
    if names != [] {
      var n := |names| - 1;
      FirstHoldersKeepIff(names[..n]);
      assert names == names[..n] + [names[n]];
      KeepBefore(names[..n], names[n]);
      CrowdedBefore(names);
      if FirstHoldersKeep(names[..n]) && names[n] !in names[..n] {
        LastIsGivenIff(names[..n], names[n]);
      }
      hide FirstHoldersKeep, NoneCrowded;
    }
  }

  /** Some name's repeats have reached the suffix that x spells. */
  ghost predicate Reached(before: seq<string>, x: string)
  {
    exists name: string, k: nat :: k >= 2 && x == Suffixed(name, k) && Crowded(before, name, k)
  }

  lemma CrowdedBefore(names: seq<string>)
    requires names != []
    ensures var n := |names| - 1;
            NoneCrowded(names) <==>
            NoneCrowded(names[..n]) && (names[n] !in names[..n] ==> !Reached(names[..n], names[n]))
  {
    hide Crowded, Suffixed;
    var n := |names| - 1;
    assert forall i :: 0 <= i < n ==> names[..n][..i] == names[..i] && names[..n][i] == names[i];
  }

  lemma LastIsGivenIff(before: seq<string>, x: string)
    requires FirstHoldersKeep(before) && x !in before
    ensures x in Unique(before) <==> Reached(before, x)
  {
    if x in Unique(before) {
      var name, k := GivenHasBase(before, x);
      SuffixesGiven(before, name);
      hide Unique, Crowded;
      assert Crowded(before, name, k);
    } else if Reached(before, x) {
      var name: string, k: nat :| k >= 2 && x == Suffixed(name, k) && Crowded(before, name, k);
      SuffixesGiven(before, name);
    }
  }

  /** So the first holder of a name can lose it: "a 2" goes to the second "a" before its own holder is reached. */
  lemma FirstHolderLosesName()
    ensures Unique(["a", "a", "a 2"]) == ["a", "a 2", "a 2 2"]
  {
    UniqueLast([], "a");
    UniqueLast(["a"], "a");
    UniqueLast(["a", "a"], "a 2");
    hide Unique;
    assert Itoa(2) == "2" && Suffixed("a", 2) == "a 2" && Suffixed("a 2", 2) == "a 2 2";
    assert [] + ["a"] == ["a"] && ["a"] + ["a"] == ["a", "a"] && ["a", "a"] + ["a 2"] == ["a", "a", "a 2"];
    assert Unique([]) == [] && Taken([]) == {} && Taken(["a"]) == {"a"} && Taken(["a", "a 2"]) == {"a", "a 2"};
    assert "a" != "a 2" && |"a 2 2"| == 5;
  }

  // ---------- the loop over node objects ----------

  ghost function Views(nodes: seq<Proxy>): (r: seq<Node>)
    reads nodes
    ensures |r| == |nodes| && forall i :: 0 <= i < |nodes| ==> r[i] == nodes[i].View()
  {
    seq(|nodes|, i requires 0 <= i < |nodes| reads nodes => nodes[i].View())
  }

  lemma ViewsSnoc(nodes: seq<Proxy>, p: Proxy)
    ensures Views(nodes + [p]) == Views(nodes) + [p.View()]
  {
  }

  function NamesOf(vs: seq<Node>): (r: seq<string>)
    ensures |r| == |vs|
  {
    seq(|vs|, i requires 0 <= i < |vs| => vs[i].name)
  }

  /** A node under the name the list gives it: untouched if that is its own, else renamed. */
  function Named(n: Node, name: string): Node { if n.name == name then n else n.Renamed(name) }

  /** The probe: count upward from 2 until the suffixed name is free. */
  method Probe(name: string, seen: set<string>) returns (candidate: string)
    requires name in seen
    ensures candidate == Choose(name, seen)
  {
    var k: nat := 2;
    while Suffixed(name, k) in seen
      invariant k >= 2 && forall j :: 2 <= j < k ==> Suffixed(name, j) in seen
      decreases |seen| + 2 - k
    {
      k := k + 1;
      ProbesAreTaken(name, seen, k);
    }
    candidate := Suffixed(name, k);
    assert LeastFree(name, seen, 2) == k;
  }

  /** nodes holds no object twice. */
  method UniquifyNames(nodes: seq<Proxy>)
    requires Distinct(nodes)
    modifies nodes
    ensures var was := old(Views(nodes));
            forall i :: 0 <= i < |nodes| ==> nodes[i].View() == Named(was[i], Unique(NamesOf(was))[i])
  {
    var seen: set<string> := {};
    ghost var was := Views(nodes);
    ghost var names, given := NamesOf(was), [];
    for i := 0 to |nodes|
      invariant given == Unique(names[..i]) && |given| == i && seen == Taken(given)
      invariant forall k :: 0 <= k < |nodes| ==> nodes[k].View() == if k < i then Named(was[k], given[k]) else was[k]
    {
      UniqueSnoc(names, i);
      assert forall k :: 0 <= k < |nodes| && k != i ==> nodes[k] != nodes[i];
      assert nodes[i].Name == names[i];
      given := given + [Choose(names[i], Taken(given))];
      hide Unique, Choose, Taken, Distinct;
      seen := Place(nodes[i], seen);
    }
    assert names[..|nodes|] == names;
  }

  /** One round of the loop. */
  method Place(n: Proxy, seen: set<string>) returns (seen': set<string>)
    modifies n
    ensures n.View() == Named(old(n.View()), Choose(old(n.Name), seen))
    ensures seen' == seen + {Choose(old(n.Name), seen)}
  {
    if n.Name !in seen {
      return seen + {n.Name};
    }
    var candidate := Probe(n.Name, seen);
    n.Rename(candidate);
    return seen + {candidate};
  }

  lemma UniqueSnoc(names: seq<string>, i: nat)
    requires i < |names|
    ensures var before := Unique(names[..i]);
            var chosen := Choose(names[i], Taken(before));
            Unique(names[..i + 1]) == before + [chosen] && Taken(before + [chosen]) == Taken(before) + {chosen}
  {
    assert names[..i + 1][..i] == names[..i];
  }
}
