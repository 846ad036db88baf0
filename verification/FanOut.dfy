/**
  Fan-out over goroutines: one goroutine per source writes its own slot, the caller waits for all of
  them and assembles the slots in declared order (collectRules in internal/generator/common.go, with
  a semaphore; fetchAndParseAll in internal/convert/convert.go, without one).
 */
module FanOut {
  import opened Wrappers
  import opened Sets

  datatype Worker = Unborn | Waiting | Fetching | Holding | Exited

  /**
    What the goroutines are to do. work(i) is what slot i gets, None leaving it as it was; lost(i) is
    what it gets when the context is cancelled under the fetch. A gated job has the semaphore.
   */
  datatype Job<T> = Job(n: nat, wants: nat -> bool, gated: bool, limit: nat, work: nat -> Option<T>,
                        lost: nat -> Option<T>)

  datatype Sys<T> = Sys(workers: seq<Worker>, slots: seq<Option<T>>, spawned: nat, sem: nat, cancelled: bool)

  datatype Label =
    | Spawn
    | Acquire(i: nat)
    | GiveUp(i: nat)               // the select takes ctx.Done
    | Finish(i: nat, cut: bool)    // the fetch returns and the slot is written
    | Release(i: nat)              // the deferred semaphore receive and wg.Done
    | Cancel

  function Start<T>(j: Job<T>): Sys<T>
  {
    Sys(seq(j.n, i => Unborn), seq(j.n, i => None), 0, 0, false)
  }

  predicate Enabled<T>(j: Job<T>, s: Sys<T>, l: Label)
  {
    match l
    case Spawn => s.spawned < j.n && |s.workers| == j.n
    case Acquire(i) => i < |s.workers| && s.workers[i] == Waiting && (j.gated ==> s.sem < j.limit)
    case GiveUp(i) => i < |s.workers| && s.workers[i] == Waiting && j.gated && s.cancelled
    case Finish(i, cut) => i < |s.workers| == |s.slots| && s.workers[i] == Fetching && (cut ==> s.cancelled)
    case Release(i) => i < |s.workers| && s.workers[i] == Holding && s.sem > 0
    case Cancel => !s.cancelled
  }

  function After<T>(j: Job<T>, s: Sys<T>, l: Label): Sys<T>
    requires Enabled(j, s, l)
  {
    match l
    case Spawn => s.(workers := s.workers[s.spawned := if j.wants(s.spawned) then Waiting else Exited],
        spawned := s.spawned + 1)
    case Acquire(i) => s.(workers := s.workers[i := Fetching], sem := s.sem + 1)
    case GiveUp(i) => s.(workers := s.workers[i := Exited])
    case Finish(i, cut) => s.(workers := s.workers[i := Holding],
        slots := s.slots[i := if cut then j.lost(i) else j.work(i)])
    case Release(i) => s.(workers := s.workers[i := Exited], sem := s.sem - 1)
    case Cancel => s.(cancelled := true)
  }

  ghost predicate Run<T>(j: Job<T>, states: seq<Sys<T>>, labels: seq<Label>)
  {
    && |states| == |labels| + 1 && states[0] == Start(j)
    && forall k :: 0 <= k < |labels| ==>
      Enabled(j, states[k], labels[k]) && states[k + 1] == After(j, states[k], labels[k])
  }

  /** wg.Wait returns. */
  predicate Complete<T>(j: Job<T>, s: Sys<T>)
  {
    s.spawned == j.n && forall i :: 0 <= i < |s.workers| ==> s.workers[i] == Exited
  }

  // ---------- what every reachable state keeps ----------

  function InUse(workers: seq<Worker>): set<nat>
  {
    set i: nat | i < |workers| && (workers[i] == Fetching || workers[i] == Holding)
  }

  predicate SlotOk<T(==)>(j: Job<T>, s: Sys<T>, i: nat)
    requires i < |s.workers| == |s.slots|
  {
    match s.workers[i]
    case Unborn => i >= s.spawned && s.slots[i] == None
    case Waiting => i < s.spawned && j.wants(i) && s.slots[i] == None
    case Fetching => i < s.spawned && j.wants(i) && s.slots[i] == None
    case Holding => i < s.spawned && j.wants(i) && (s.slots[i] == j.work(i) || (s.cancelled && s.slots[i] == j.lost(i)))
    case Exited =>
      && i < s.spawned
      && if j.wants(i) then s.slots[i] == j.work(i)
          || (s.cancelled && (s.slots[i] == j.lost(i) || (j.gated && s.slots[i] == None)))
         else s.slots[i] == None
  }

  ghost predicate Inv<T>(j: Job<T>, s: Sys<T>)
  {
    && |s.workers| == |s.slots| == j.n && s.spawned <= j.n
    && (forall i :: 0 <= i < j.n ==> SlotOk(j, s, i))
    && s.sem == |InUse(s.workers)|
    && (j.gated ==> s.sem <= j.limit)
  }

  predicate Uses(w: Worker) { w == Fetching || w == Holding }

  lemma InUseAfter(workers: seq<Worker>, i: nat, w: Worker)
    requires i < |workers|
    ensures |InUse(workers[i := w])| == |InUse(workers)| - (if Uses(workers[i]) then 1 else 0)
            + if Uses(w) then 1 else 0
  {
    var rest := InUse(workers) - {i};
    assert InUse(workers) == if Uses(workers[i]) then rest + {i} else rest;
    assert InUse(workers[i := w]) == if Uses(w) then rest + {i} else rest;
  }

  /** The goroutine a step is about. */
  function Subject<T>(s: Sys<T>, l: Label): nat
  {
    match l
    case Spawn => s.spawned
    case Acquire(i) => i
    case GiveUp(i) => i
    case Finish(i, _) => i
    case Release(i) => i
    case Cancel => 0
  }

  lemma OthersKeepSlots<T>(j: Job<T>, s: Sys<T>, l: Label, i: nat)
    requires |s.workers| == |s.slots| == j.n && i < j.n && Enabled(j, s, l) && SlotOk(j, s, i)
    requires i != Subject(s, l) || l.Cancel?
    ensures SlotOk(j, After(j, s, l), i)
  {
  }

  lemma SubjectKeepsSlot<T>(j: Job<T>, s: Sys<T>, l: Label)
    requires Inv(j, s) && Enabled(j, s, l) && !l.Cancel?
    ensures var i := Subject(s, l);
            i < j.n && SlotOk(j, After(j, s, l), i)
                && After(j, s, l).workers == s.workers[i := After(j, s, l).workers[i]]
  {
    hide InUse;
    assert SlotOk(j, s, Subject(s, l));
  }

  lemma SemAfter<T>(j: Job<T>, s: Sys<T>, l: Label)
    requires Inv(j, s) && Enabled(j, s, l)
    ensures After(j, s, l).sem == |InUse(After(j, s, l).workers)| && (j.gated ==> After(j, s, l).sem <= j.limit)
  {
    hide InUse;
    if !l.Cancel? {
      var i := Subject(s, l);
      SubjectKeepsSlot(j, s, l);
      assert SlotOk(j, s, i);
      InUseAfter(s.workers, i, After(j, s, l).workers[i]);
    }
  }

  lemma StepKeepsInv<T>(j: Job<T>, s: Sys<T>, l: Label)
    requires Inv(j, s) && Enabled(j, s, l)
    ensures Inv(j, After(j, s, l))
  {
    hide InUse, SlotOk;
    SemAfter(j, s, l);
    var s' := After(j, s, l);
    if !l.Cancel? { SubjectKeepsSlot(j, s, l); }
    forall i | 0 <= i < j.n
      ensures SlotOk(j, s', i)
    {
      if i != Subject(s, l) || l.Cancel? { OthersKeepSlots(j, s, l, i); }
    }
  }

  lemma {:induction false} RunKeepsInv<T>(j: Job<T>, states: seq<Sys<T>>, labels: seq<Label>, k: nat)
    requires Run(j, states, labels) && k < |states|
    ensures Inv(j, states[k])
  {
    if k == 0 {
      assert InUse(states[0].workers) == {};
    } else {
      RunKeepsInv(j, states, labels, k - 1);
      StepKeepsInv(j, states[k - 1], labels[k - 1]);
    }
    hide InUse, SlotOk, Enabled, After;
  }

  /** At no moment do more goroutines fetch than the semaphore has places. */
  lemma FetchesAreBounded<T>(j: Job<T>, states: seq<Sys<T>>, labels: seq<Label>, k: nat)
    requires Run(j, states, labels) && k < |states| && j.gated
    ensures |set i: nat | i < |states[k].workers| && states[k].workers[i] == Fetching| <= j.limit
  {
    RunKeepsInv(j, states, labels, k);
    var fetching := set i: nat | i < |states[k].workers| && states[k].workers[i] == Fetching;
    SubsetSize(fetching, InUse(states[k].workers));
  }

  /** Once all goroutines are done and nobody cancelled, the slots hold what the work alone decides. */
  lemma SlotsAreTheWork<T>(j: Job<T>, states: seq<Sys<T>>, labels: seq<Label>, i: nat)
    requires Run(j, states, labels) && i < j.n
    requires var last := states[|labels|]; Complete(j, last) && !last.cancelled
    ensures |states[|labels|].slots| == j.n
    ensures states[|labels|].slots[i] == if j.wants(i) then j.work(i) else None
  {
    RunKeepsInv(j, states, labels, |labels|);
    var last := states[|labels|];
    assert SlotOk(j, last, i);
    hide Run;
  }

  /** Cancelled or not, a slot holds the whole work, what a cut fetch leaves, or nothing. */
  lemma CancelledSlots<T>(j: Job<T>, states: seq<Sys<T>>, labels: seq<Label>, i: nat)
    requires Run(j, states, labels) && i < j.n && Complete(j, states[|labels|])
    ensures |states[|labels|].slots| == j.n
    ensures states[|labels|].slots[i] in {if j.wants(i) then j.work(i) else None, j.lost(i), None}
  {
    RunKeepsInv(j, states, labels, |labels|);
    var last := states[|labels|];
    assert SlotOk(j, last, i);
    hide Run;
  }

  // ---------- no schedule gets stuck or goes on for ever ----------

  /** Until all goroutines are done some step other than a cancellation can be taken. */
  lemma NeverStuck<T>(j: Job<T>, states: seq<Sys<T>>, labels: seq<Label>)
    requires Run(j, states, labels) && (j.gated ==> j.limit > 0) && !Complete(j, states[|labels|])
    ensures exists l :: Enabled(j, states[|labels|], l) && !l.Cancel?
  {
    RunKeepsInv(j, states, labels, |labels|);
    var s := states[|labels|];
    hide Run;
    if s.spawned < j.n {
      assert Enabled(j, s, Spawn);
    } else {
      var i :| 0 <= i < j.n && s.workers[i] != Exited;
      assert SlotOk(j, s, i);
      if u: nat :| u < j.n && u in InUse(s.workers) {
        if s.workers[u] == Fetching { assert Enabled(j, s, Finish(u, false)); }
        else { assert Enabled(j, s, Release(u)); }
      } else {
        assert InUse(s.workers) == {};
        assert i !in InUse(s.workers);
        assert Enabled(j, s, Acquire(i));
      }
    }
  }

  function Rank(w: Worker): nat
  {
    match w
    case Unborn => 4
    case Waiting => 3
    case Fetching => 2
    case Holding => 1
    case Exited => 0
  }

  function Remaining(workers: seq<Worker>): nat
  {
    if workers == [] then 0 else Remaining(workers[..|workers| - 1]) + Rank(workers[|workers| - 1])
  }

  lemma {:induction false} RemainingAfter(workers: seq<Worker>, i: nat, w: Worker)
    requires i < |workers|
    ensures Remaining(workers[i := w]) == Remaining(workers) - Rank(workers[i]) + Rank(w)
  {
    var n := |workers| - 1;
    if i < n {
      RemainingAfter(workers[..n], i, w);
      assert workers[i := w][..n] == workers[..n][i := w];
    } else {
      assert workers[i := w][..n] == workers[..n];
    }
  }

  lemma {:induction false} RemainingAtStart(workers: seq<Worker>)
    ensures Remaining(workers) <= 4 * |workers|
  {
    if workers != [] { RemainingAtStart(workers[..|workers| - 1]); }
  }

  lemma StepUsesUp<T>(j: Job<T>, s: Sys<T>, l: Label)
    requires Inv(j, s) && Enabled(j, s, l)
    ensures if l.Cancel? then !s.cancelled && After(j, s, l).cancelled
            && Remaining(After(j, s, l).workers) == Remaining(s.workers)
            else After(j, s, l).cancelled == s.cancelled && Remaining(After(j, s, l).workers) < Remaining(s.workers)
  {
    hide Remaining;
    match l {
      case Spawn => assert SlotOk(j, s, s.spawned);
          RemainingAfter(s.workers, s.spawned, if j.wants(s.spawned) then Waiting else Exited);
      case Acquire(i) => RemainingAfter(s.workers, i, Fetching);
      case GiveUp(i) => RemainingAfter(s.workers, i, Exited);
      case Finish(i, _) => RemainingAfter(s.workers, i, Holding);
      case Release(i) => RemainingAfter(s.workers, i, Exited);
      case Cancel =>
    }
  }

  lemma {:induction false} RunUsesUp<T>(j: Job<T>, states: seq<Sys<T>>, labels: seq<Label>, k: nat)
    requires Run(j, states, labels) && k < |states|
    ensures Remaining(states[k].workers) + k <= 4 * j.n + if states[k].cancelled then 1 else 0
  {
    if k == 0 {
      RemainingAtStart(states[0].workers);
    } else {
      RunUsesUp(j, states, labels, k - 1);
      RunKeepsInv(j, states, labels, k - 1);
      StepUsesUp(j, states[k - 1], labels[k - 1]);
      hide Enabled, After, Inv, Remaining;
    }
  }

  /** Every schedule is over after at most four steps per source and one cancellation. */
  lemma RunsAreShort<T>(j: Job<T>, states: seq<Sys<T>>, labels: seq<Label>)
    requires Run(j, states, labels)
    ensures |labels| <= 4 * j.n + 1
  {
    RunUsesUp(j, states, labels, |labels|);
  }
}
