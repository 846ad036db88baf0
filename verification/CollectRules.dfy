/** collectRules (internal/generator/common.go): rulesets fetched concurrently, assembled in declared order. */
module CollectRules {
  import opened Wrappers
  import opened Text
  import opened Rules
  import opened FanOut
  import RuleProviders

  const MAX_FETCHES: nat := 16

  datatype Fetched = Fetched(rules: seq<Rule>, skipped: seq<string>)

  /** What the origin answers for a URL when it is left to: None is an error. */
  type World = string -> Option<string>

  function Parsed(data: string, group: string): Fetched
  {
    Fetched(ListRules(Split(data, '\n'), group), ListSkips(Split(data, '\n')))
  }

  function WorkOf(rs: Ruleset, world: World): Option<Fetched>
  {
    var data := world(rs.url);
    if data.Some? then Some(Parsed(data.value, rs.group)) else None
  }

  function JobOf(rulesets: seq<Ruleset>, world: World): Job<Fetched>
  {
    Job(|rulesets|, (i: nat) => i < |rulesets| && rulesets[i].url != "", true, MAX_FETCHES,
        (i: nat) => if i < |rulesets| then WorkOf(rulesets[i], world) else None, i => None)
  }

  /** What one ruleset adds, given its slot. */
  function Share(rs: Ruleset, slot: Option<Fetched>): Fetched
  {
    if rs.inline != "" then
      var r := ParseInlineRule(rs.inline, rs.group);
      if r.Some? then Fetched([r.value], []) else Fetched([], [rs.inline + "," + rs.group])
    else if slot.Some? then slot.value else Fetched([], [])
  }

  function Append(a: Fetched, b: Fetched): Fetched { Fetched(a.rules + b.rules, a.skipped + b.skipped) }

  function Assembled(rulesets: seq<Ruleset>, slots: seq<Option<Fetched>>): Fetched
    requires |slots| == |rulesets|
  {
    if rulesets == [] then Fetched([], []) else
    var n := |rulesets| - 1;
    Append(Assembled(rulesets[..n], slots[..n]), Share(rulesets[n], slots[n]))
  }

  /** The loop after wg.Wait. */
  method Assemble(rulesets: seq<Ruleset>, results: seq<Option<Fetched>>, tailscale: bool)
    returns (rules: seq<Rule>, skipped: seq<string>)
    requires |results| == |rulesets|
    ensures rules == (if tailscale then TAILSCALE else []) + Assembled(rulesets, results).rules
    ensures skipped == Assembled(rulesets, results).skipped
  {
    hide ParseInlineRule;
    rules, skipped := [], [];
    for i := 0 to |rulesets|
      invariant Fetched(rules, skipped) == Assembled(rulesets[..i], results[..i])
    {
      assert rulesets[..i + 1][..i] == rulesets[..i] && results[..i + 1][..i] == results[..i];
      var rs := rulesets[i];
      if rs.inline != "" {
        var r := ParseInlineRule(rs.inline, rs.group);
        if r.Some? {
          rules := rules + [r.value];
        } else {
          skipped := skipped + [rs.inline + "," + rs.group];
        }
        continue;
      }
      if results[i].Some? {
        rules := rules + results[i].value.rules;
        skipped := skipped + results[i].value.skipped;
      }
    }
    assert rulesets[..|rulesets|] == rulesets && results[..|rulesets|] == results;
    rules := (if tailscale then TAILSCALE else []) + rules;
  }

  // ---------- one ruleset after the other ----------

  /** What one ruleset contributes when fetched on its own. */
  function Alone(rs: Ruleset, world: World): Fetched
  {
    Share(rs, if rs.url != "" then WorkOf(rs, world) else None)
  }

  function Sequential(rulesets: seq<Ruleset>, world: World): Fetched
  {
    if rulesets == [] then Fetched([], []) else
    var n := |rulesets| - 1;
    Append(Sequential(rulesets[..n], world), Alone(rulesets[n], world))
  }

  lemma {:induction false} AssembledIsSequential(rulesets: seq<Ruleset>, slots: seq<Option<Fetched>>, world: World)
    requires |slots| == |rulesets|
    requires forall i :: 0 <= i < |rulesets| ==> Share(rulesets[i], slots[i]) == Alone(rulesets[i], world)
    ensures Assembled(rulesets, slots) == Sequential(rulesets, world)
  {
    hide Share, Alone;
    if rulesets != [] {
      var n := |rulesets| - 1;
      AssembledIsSequential(rulesets[..n], slots[..n], world);
    }
  }

  /** Whatever the interleaving, without cancellation the result is the sequential expansion. */
  lemma {:induction false} CollectIsScheduleIndependent(rulesets: seq<Ruleset>, world: World, states: seq<Sys<Fetched>>,
                                                        labels: seq<Label>)
    requires Run(JobOf(rulesets, world), states, labels)
    requires var last := states[|labels|]; Complete(JobOf(rulesets, world), last) && !last.cancelled
    ensures |states[|labels|].slots| == |rulesets|
    ensures Assembled(rulesets, states[|labels|].slots) == Sequential(rulesets, world)
  {
    var j, last := JobOf(rulesets, world), states[|labels|];
    RunKeepsInv(j, states, labels, |labels|);
    forall i | 0 <= i < |rulesets|
      ensures Share(rulesets[i], last.slots[i]) == Alone(rulesets[i], world)
    {
      SlotsAreTheWork(j, states, labels, i);
    }
    AssembledIsSequential(rulesets, last.slots, world);
  }

  /** kept[i]: the list of ruleset i survived the cancellation. */
  function Without(rulesets: seq<Ruleset>, world: World, kept: seq<bool>): Fetched
    requires |kept| == |rulesets|
  {
    if rulesets == [] then Fetched([], []) else
    var n := |rulesets| - 1;
    var rs := rulesets[n];
    Append(Without(rulesets[..n], world, kept[..n]), if kept[n] || rs.inline != "" then Alone(rs, world)
        else Fetched([], []))
  }

  lemma {:induction false} AssembledIsWithout(rulesets: seq<Ruleset>, slots: seq<Option<Fetched>>, world: World,
                                              kept: seq<bool>)
    requires |slots| == |rulesets| == |kept|
    requires forall i :: 0 <= i < |rulesets| ==>
      Share(rulesets[i], slots[i]) == if kept[i] || rulesets[i].inline != "" then Alone(rulesets[i], world)
          else Fetched([], [])
    ensures Assembled(rulesets, slots) == Without(rulesets, world, kept)
  {
    hide Share, Alone;
    if rulesets != [] {
      var n := |rulesets| - 1;
      AssembledIsWithout(rulesets[..n], slots[..n], world, kept[..n]);
    }
  }

  /** A cancellation drops whole lists: what is left is the sequential expansion of the others, in order. */
  lemma {:induction false} CancellationDropsWholeLists(rulesets: seq<Ruleset>, world: World, states: seq<Sys<Fetched>>,
                                                       labels: seq<Label>)
    returns (kept: seq<bool>)
    requires Run(JobOf(rulesets, world), states, labels) && Complete(JobOf(rulesets, world), states[|labels|])
    ensures |kept| == |rulesets| == |states[|labels|].slots|
    ensures Assembled(rulesets, states[|labels|].slots) == Without(rulesets, world, kept)
  {
    var j, last := JobOf(rulesets, world), states[|labels|];
    RunKeepsInv(j, states, labels, |labels|);
    kept := seq(|rulesets|, i requires 0 <= i < |rulesets| => last.slots[i].Some?);
    forall i | 0 <= i < |rulesets|
      ensures Share(rulesets[i], last.slots[i]) ==
              if kept[i] || rulesets[i].inline != "" then Alone(rulesets[i], world) else Fetched([], [])
    {
      assert SlotOk(j, last, i);
    }
    hide Share, Alone, Run, SlotOk;
    AssembledIsWithout(rulesets, last.slots, world, kept);
  }

  /** At most 16 lists are being fetched at any moment. */
  lemma AtMostSixteenFetches(rulesets: seq<Ruleset>, world: World, states: seq<Sys<Fetched>>, labels: seq<Label>,
                             k: nat)
    requires Run(JobOf(rulesets, world), states, labels) && k < |states|
    ensures |set i: nat | i < |states[k].workers| && states[k].workers[i] == Fetching| <= 16
  {
    FetchesAreBounded(JobOf(rulesets, world), states, labels, k);
  }

  /** With every list fetched, the expansion is the one the provider output is compared with. */
  lemma {:induction false} SequentialIsNeutral(rulesets: seq<Ruleset>, fetch: RuleProviders.Fetch)
    ensures Sequential(rulesets, u => Some(fetch(u))).rules == RuleProviders.NeutralAll(rulesets, fetch)
  {
    hide ParseInlineRule, ListRules, ListSkips;
    if rulesets != [] { SequentialIsNeutral(rulesets[..|rulesets| - 1], fetch); }
  }
}
