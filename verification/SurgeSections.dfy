/**
  Which lines of a Surge document are taken for nodes, told by their places alone (internal/parser/surge.go).
 */
module SurgeSections {
  import opened Text
  import opened SurgeLines
  import opened SurgeLists

  /** The line a raw line holds is no blank, no comment and no header, and sets something. */
  predicate IsEntry(line: string, has: bool)
  {
    line != "" && line[0] != '#' && line[0] != ';' && !("//" <= line) && !(has && IsHeader(line)) && '=' in line
  }

  predicate OpensProxy(raw: string) { IsHeader(Cleaned(raw)) && SectionName(Cleaned(raw)) == "proxy" }

  /** The last header above line i names the proxy section, in any case. */
  ghost predicate InProxy(lines: seq<string>, i: nat)
    requires i <= |lines|
  {
    exists h | 0 <= h < i :: OpensProxy(lines[h]) && forall k | h < k < i :: !IsHeader(Cleaned(lines[k]))
  }

  ghost predicate IsTaken(lines: seq<string>, has: bool, i: nat)
    requires i < |lines|
  {
    IsEntry(Cleaned(lines[i]), has) && (has ==> InProxy(lines, i))
  }

  /** `at` lists, in order, the places of the lines found. */
  ghost predicate Places(lines: seq<string>, has: bool, at: seq<nat>, found: seq<string>)
  {
    && |at| == |found|
    && (forall j :: 0 <= j < |at| ==> at[j] < |lines| && found[j] == Cleaned(lines[at[j]]))
    && (forall i, j :: 0 <= i < j < |at| ==> at[i] < at[j])
    && (forall i :: 0 <= i < |lines| ==> (i in at <==> IsTaken(lines, has, i)))
  }

  lemma CommentStarts(line: string)
    ensures IsComment(line) <==> line != "" && (line[0] == '#' || line[0] == ';' || "//" <= line)
  {
  }

  lemma HeaderStarts(line: string)
    requires IsHeader(line)
    ensures line != "" && !IsComment(line)
  {
    assert line[0] == '[';
  }

  lemma {:induction false} SectionIs(lines: seq<string>)
    ensures Scanned(lines, true).inProxy <==> InProxy(lines, |lines|)
  {
    hide Cleaned, IsHeader, SectionName, IsComment;
    if lines != [] {
      var n := |lines| - 1;
      var front := lines[..n];
      SectionIs(front);
      assert forall k :: 0 <= k < n ==> front[k] == lines[k];
      if IsHeader(Cleaned(lines[n])) {
        HeaderStarts(Cleaned(lines[n]));
        if OpensProxy(lines[n]) {
          assert InProxy(lines, |lines|);
        }
      } else {
        SameSection(lines);
      }
    }
  }

  lemma SameSection(lines: seq<string>)
    requires lines != [] && !IsHeader(Cleaned(lines[|lines| - 1]))
    ensures var n := |lines| - 1; InProxy(lines, |lines|) <==> InProxy(lines[..n], n)
  {
    hide Cleaned, IsHeader, SectionName;
    var n := |lines| - 1;
    var front := lines[..n];
    if h: nat :| h < |lines| && OpensProxy(lines[h]) && forall k | h < k < |lines| :: !IsHeader(Cleaned(lines[k])) {
      assert h < n && OpensProxy(front[h]);
      assert forall k | h < k < n :: !IsHeader(Cleaned(front[k]));
    }
    if h: nat :| h < n && OpensProxy(front[h]) && forall k | h < k < n :: !IsHeader(Cleaned(front[k])) {
      assert OpensProxy(lines[h]);
      assert forall k | h < k < |lines| :: !IsHeader(Cleaned(lines[k]));
    }
  }

  lemma TakenBelow(lines: seq<string>, has: bool, n: nat, i: nat)
    requires i < n <= |lines|
    ensures IsTaken(lines[..n], has, i) <==> IsTaken(lines, has, i)
  {
    hide Cleaned, IsHeader, IsEntry, OpensProxy;
    var front := lines[..n];
    assert forall k :: 0 <= k < n ==> front[k] == lines[k];
  }

  /**
    The lines taken for nodes are, in order, exactly those that set something in the proxy section, or anywhere when
    no line is a header.
   */
  lemma {:induction false} LinesTaken(lines: seq<string>, has: bool)
    ensures exists at: seq<nat> :: Places(lines, has, at, Scanned(lines, has).found)
  {
    hide Cleaned, IsHeader, SectionName, IsComment, IsTaken, InProxy;
    if lines == [] {
      var none: seq<nat> := [];
      assert Scanned(lines, has).found == [];
      assert Places(lines, has, none, []);
    } else {
      var n := |lines| - 1;
      LinesTaken(lines[..n], has);
      var at: seq<nat> :| Places(lines[..n], has, at, Scanned(lines[..n], has).found);
      LastTaken(lines, has);
      PlacesGrow(lines, has, at, Scanned(lines[..n], has).found);
    }
  }

  lemma LastTaken(lines: seq<string>, has: bool)
    requires lines != []
    ensures var n := |lines| - 1;
            Scanned(lines, has).found == Scanned(lines[..n], has).found
              + if IsTaken(lines, has, n) then [Cleaned(lines[n])] else []
  {
    var n := |lines| - 1;
    var line := Cleaned(lines[n]);
    CommentStarts(line);
    if has { SectionIs(lines[..n]); }
    hide Cleaned, IsHeader, SectionName, IsComment;
    assert InProxy(lines[..n], n) <==> InProxy(lines, n) by { SectionAbove(lines, n); }
    hide InProxy, Scanned;
    assert Scanned(lines, has) == ScanStep(Scanned(lines[..n], has), has, lines[n]) by { ScannedStep(lines, has); }
  }

  lemma ScannedStep(lines: seq<string>, has: bool)
    requires lines != []
    ensures var n := |lines| - 1; Scanned(lines, has) == ScanStep(Scanned(lines[..n], has), has, lines[n])
  {
  }

  lemma SectionAbove(lines: seq<string>, n: nat)
    requires n <= |lines|
    ensures InProxy(lines[..n], n) <==> InProxy(lines, n)
  {
    hide Cleaned, IsHeader, OpensProxy;
    assert forall k :: 0 <= k < n ==> lines[..n][k] == lines[k];
  }

  lemma PlacesGrow(lines: seq<string>, has: bool, at: seq<nat>, found: seq<string>)
    requires lines != [] && Places(lines[..|lines| - 1], has, at, found)
    ensures var n := |lines| - 1;
            if IsTaken(lines, has, n) then Places(lines, has, at + [n], found + [Cleaned(lines[n])])
            else Places(lines, has, at, found + [])
  {
    hide Cleaned, IsTaken;
    var n := |lines| - 1;
    assert forall k :: 0 <= k < n ==> lines[..n][k] == lines[k];
    forall i | 0 <= i < n
      ensures IsTaken(lines[..n], has, i) <==> IsTaken(lines, has, i)
    {
      TakenBelow(lines, has, n, i);
    }
    assert found + [] == found;
    assert forall j :: 0 <= j < |at| ==> at[j] < n;
    assert n !in at;
    assert forall i :: i in at + [n] <==> i in at || i == n;
  }

  ghost predicate AnyHeader(lines: seq<string>) { exists i :: 0 <= i < |lines| && IsHeader(TrimSpace(lines[i])) }

  ghost predicate HoldsLines(lines: seq<string>, found: seq<string>)
  {
    exists at: seq<nat> :: Places(lines, AnyHeader(lines), at, found)
  }

  /** The nodes and the skipped lines of a document are those of the lines taken, in order. */
  lemma DocumentRead(text: string, other: OtherReader)
    ensures exists found :: HoldsLines(Split(text, '\n'), found)
                            && Parsed(text, other) == Section(NodesIn(found, other), SkippedIn(found, other))
  {
    hide Split, Scanned, Places, IsHeader, TrimSpace, NodesIn, SkippedIn;
    var lines := Split(text, '\n');
    assert AnyHeader(lines) == HasSections(lines);
    LinesTaken(lines, HasSections(lines));
    var found := Scanned(lines, HasSections(lines)).found;
    assert HoldsLines(lines, found);
    assert Parsed(text, other) == Section(NodesIn(found, other), SkippedIn(found, other));
  }
}
