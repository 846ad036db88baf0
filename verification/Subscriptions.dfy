/** fetchAndParseAll and the merge in Run (internal/convert/convert.go). */
module Subscriptions {
  import opened Wrappers
  import opened FanOut

  /** One source's outcome; error is "" when there is none. */
  datatype Out<N> = Out(nodes: seq<N>, skipped: seq<string>, userinfo: string, error: string)

  /** What each source comes to, and what it comes to when its request is cut off. A share link is never cut off. */
  datatype Sources<N> = Sources(urls: seq<string>, outcome: string -> Out<N>, cutOff: string -> Out<N>)

  function JobOf<N>(src: Sources<N>): Job<Out<N>>
  {
    Job(|src.urls|, (i: nat) => true, false, 0,
        (i: nat) => if i < |src.urls| then Some(src.outcome(src.urls[i])) else None,
        (i: nat) => if i < |src.urls| then Some(src.cutOff(src.urls[i])) else None)
  }

  /** The index counts from 0; the message shows it from 1. */
  datatype Merged<N> = Failed(index: nat, error: string) | Merged(nodes: seq<N>, skipped: seq<string>, userinfo: string)

  function Nodes<N>(results: seq<Out<N>>): seq<N>
  {
    if results == [] then [] else Nodes(results[..|results| - 1]) + results[|results| - 1].nodes
  }

  function Skipped<N>(results: seq<Out<N>>): seq<string>
  {
    if results == [] then [] else Skipped(results[..|results| - 1]) + results[|results| - 1].skipped
  }

  /** The loop after wg.Wait: the first failing source is reported, else everything is concatenated in order. */
  method Merge<N>(results: seq<Out<N>>) returns (m: Merged<N>)
    ensures m.Failed? ==> m.index < |results| && m.error == results[m.index].error != ""
                          && forall i :: 0 <= i < m.index ==> results[i].error == ""
    ensures m.Merged? ==> (forall i :: 0 <= i < |results| ==> results[i].error == "")
                          && m.nodes == Nodes(results) && m.skipped == Skipped(results)
                          && m.userinfo == if results == [] then "" else results[0].userinfo
  {
    var nodes, skipped := [], [];
    for i := 0 to |results|
      invariant forall k :: 0 <= k < i ==> results[k].error == ""
      invariant nodes == Nodes(results[..i]) && skipped == Skipped(results[..i])
    {
      var r := results[i];
      if r.error != "" {
        return Failed(i, r.error);
      }
      assert results[..i + 1][..i] == results[..i];
      nodes := nodes + r.nodes;
      skipped := skipped + r.skipped;
    }
    assert results[..|results|] == results;
    var userinfo := "";
    if |results| > 0 {
      userinfo := results[0].userinfo;
    }
    m := Merged(nodes, skipped, userinfo);
  }

  /** What Merge returns, as a function of the results. */
  function MergeOf<N>(results: seq<Out<N>>): Merged<N>
  {
    var i := FirstError(results);
    if i < |results| then Failed(i, results[i].error)
    else Merged(Nodes(results), Skipped(results), if results == [] then "" else results[0].userinfo)
  }

  function FirstError<N>(results: seq<Out<N>>): (i: nat)
    ensures i <= |results|
    ensures i < |results| ==> results[i].error != ""
    ensures forall k :: 0 <= k < i ==> results[k].error == ""
  {
    if results == [] then 0
    else
      var n := |results| - 1;
      var i := FirstError(results[..n]);
      assert forall k :: 0 <= k < i ==> results[k] == results[..n][k];
      if i < n then i else if results[n].error != "" then n else n + 1
  }

  /** One source after the other, stopping at the first that fails. */
  function OneByOne<N>(urls: seq<string>, outcome: string -> Out<N>): Merged<N>
  {
    if urls == [] then Merged([], [], "")
    else
      var n := |urls| - 1;
      var before, out := OneByOne(urls[..n], outcome), outcome(urls[n]);
      if before.Failed? then before
      else if out.error != "" then Failed(n, out.error)
      else Merged(before.nodes + out.nodes, before.skipped
          + out.skipped, if n == 0 then out.userinfo else before.userinfo)
  }

  function Outcomes<N>(urls: seq<string>, outcome: string -> Out<N>): (r: seq<Out<N>>)
    ensures |r| == |urls| && forall i :: 0 <= i < |urls| ==> r[i] == outcome(urls[i])
  {
    seq(|urls|, i requires 0 <= i < |urls| => outcome(urls[i]))
  }

  lemma {:induction false} MergeIsOneByOne<N>(urls: seq<string>, outcome: string -> Out<N>)
    ensures MergeOf(Outcomes(urls, outcome)) == OneByOne(urls, outcome)
  {
    if urls != [] {
      var n := |urls| - 1;
      MergeIsOneByOne(urls[..n], outcome);
      assert Outcomes(urls, outcome)[..n] == Outcomes(urls[..n], outcome);
    }
  }

  /** Any Merge result is MergeOf: the contract leaves it no choice. */
  lemma MergeContractIsMergeOf<N>(results: seq<Out<N>>, m: Merged<N>)
    requires m.Failed? ==> m.index < |results| && m.error == results[m.index].error != ""
                           && forall i :: 0 <= i < m.index ==> results[i].error == ""
    requires m.Merged? ==> (forall i :: 0 <= i < |results| ==> results[i].error == "")
                           && m.nodes == Nodes(results) && m.skipped == Skipped(results)
                           && m.userinfo == if results == [] then "" else results[0].userinfo
    ensures m == MergeOf(results)
  {
    var i := FirstError(results);
    if m.Failed? {
      assert !(m.index < i) && !(i < m.index);
    }
    hide Nodes, Skipped, FirstError;
  }

  function Written<N>(slots: seq<Option<Out<N>>>): (r: seq<Out<N>>)
    ensures |r| == |slots|
  {
    seq(|slots|, i requires 0 <= i < |slots| => if slots[i].Some? then slots[i].value else Out([], [], "", ""))
  }

  /**
    Whatever the interleaving, without cancellation the merge gives what fetching one source after
    the other gives: the concatenation in order, or the error of the lowest-indexed source that fails.
   */
  lemma {:induction false} MergeIsScheduleIndependent<N>(src: Sources<N>, states: seq<Sys<Out<N>>>, labels: seq<Label>)
    requires Run(JobOf(src), states, labels)
    requires var last := states[|labels|]; Complete(JobOf(src), last) && !last.cancelled
    ensures MergeOf(Written(states[|labels|].slots)) == OneByOne(src.urls, src.outcome)
  {
    var j, last := JobOf(src), states[|labels|];
    RunKeepsInv(j, states, labels, |labels|);
    forall i | 0 <= i < |src.urls|
      ensures Written(last.slots)[i] == src.outcome(src.urls[i])
    {
      SlotsAreTheWork(j, states, labels, i);
    }
    hide Run, Inv;
    assert Written(last.slots) == Outcomes(src.urls, src.outcome);
    MergeIsOneByOne(src.urls, src.outcome);
  }

  datatype Gathered<N> = NoSource | SourceFailed(index: nat, error: string) | NoNodes | Gathered(nodes: seq<N>,
                                                 skipped: seq<string>, userinfo: string)

  /** The part of Run that merges the inserted nodes. */
  method Gather<N>(urls: seq<string>, subscriptions: Merged<N>, insertUrls: seq<string>, inserts: Merged<N>,
                   prepend: bool)
    returns (g: Gathered<N>)
    ensures urls == [] ==> g == NoSource
    ensures urls != [] && subscriptions.Failed? ==> g == SourceFailed(subscriptions.index, subscriptions.error)
    ensures urls != [] && subscriptions.Merged? ==>
      var extra := if insertUrls != [] && inserts.Merged? then inserts.nodes else [];
      var nodes := if prepend then extra + subscriptions.nodes else subscriptions.nodes + extra;
      g == if nodes == [] then NoNodes else Gathered(nodes, subscriptions.skipped, subscriptions.userinfo)
  {
    if |urls| == 0 {
      return NoSource;
    }
    if subscriptions.Failed? {
      return SourceFailed(subscriptions.index, subscriptions.error);
    }
    var nodes := subscriptions.nodes;
    if |insertUrls| > 0 {
      if inserts.Merged? && |inserts.nodes| > 0 {
        if prepend {
          nodes := inserts.nodes + nodes;
        } else {
          nodes := nodes + inserts.nodes;
        }
      }
    }
    if |nodes| == 0 {
      return NoNodes;
    }
    g := Gathered(nodes, subscriptions.skipped, subscriptions.userinfo);
  }
}
