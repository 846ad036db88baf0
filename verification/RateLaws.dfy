/**
  The limiter's exact law, in answers and request times alone, and what its sweeps keep bounded
  (internal/ratelimit/ratelimit.go).
 */
module RateLaws {
  import opened Wrappers
  import opened RateLimit

  // ---------- who is refused ----------

  ghost predicate Ascending(times: seq<real>) { forall i, j :: 0 <= i < j < |times| ==> times[i] <= times[j] }

  /** Tokens earned from t to u. */
  function Earned(rate: real, t: real, u: real): real { (u - t) * rate }

  /**
    What is left at request i of a burst granted at request j: the burst, what the time since has earned,
    less the requests let through from j on.
   */
  function Left(burst: real, rate: real, times: seq<real>, answers: seq<bool>, j: nat, i: nat): real
    requires j <= i < |times| == |answers|
  {
    burst + Earned(rate, times[j], times[i]) - Trues(answers[j..i]) as real
  }

  /** Some such burst is used up. */
  ghost predicate UsedUp(burst: real, rate: real, times: seq<real>, answers: seq<bool>, i: nat)
    requires i < |times| == |answers|
  {
    exists j :: 0 <= j <= i && Left(burst, rate, times, answers, j, i) < 1.0
  }

  /** The same for a bucket that held b before the first request. */
  ghost predicate UsedUpFrom(c: Config, b: Option<Bucket>, times: seq<real>, answers: seq<bool>, i: nat)
    requires i < |times| == |answers|
  {
    || Left(Available(c, b, times[0]), c.refillPerSec, times, answers, 0, i) < 1.0
    || exists j :: 1 <= j <= i && Left(c.burst, c.refillPerSec, times, answers, j, i) < 1.0
  }

  lemma LeftOfRest(burst: real, rate: real, times: seq<real>, answers: seq<bool>, j: nat, i: nat)
    requires 1 <= j <= i < |times| == |answers|
    ensures Left(burst, rate, times, answers, j, i) == Left(burst, rate, times[1..], answers[1..], j - 1, i - 1)
  {
    SliceOfRest(answers, j, i);
  }

  lemma SliceOfRest<T>(s: seq<T>, j: nat, i: nat)
    requires 1 <= j <= i <= |s|
    ensures s[j..i] == s[1..][j - 1..i - 1]
  {
    var a, b := s[j..i], s[1..][j - 1..i - 1];
    assert |a| == |b|;
    forall k | 0 <= k < |a|
      ensures a[k] == b[k]
    {
    }
  }

  /** The first request of the rest sees what the bucket had, less what the first took, plus what was earned. */
  lemma NextAvailable(c: Config, b: Option<Bucket>, t: real, u: real)
    requires c.Valid() && t <= u && (b.Some? ==> b.value.lastSeen <= t && b.value.tokens <= c.burst)
    ensures var (b', ok) := Touch(c, b, t);
            var kept := Available(c, b, t) - (if ok then 1.0 else 0.0) + Earned(c.refillPerSec, t, u);
            && ok == (Available(c, b, t) >= 1.0)
            && Available(c, Some(b'), u) == (if kept < c.burst then kept else c.burst)
            && b'.lastSeen == t && b'.tokens <= c.burst
  {
  }

  lemma StartOfRest(c: Config, b: Option<Bucket>, times: seq<real>, answers: seq<bool>, i: nat)
    requires c.Valid() && Ascending(times) && 1 <= i < |times| == |answers|
    requires b.Some? ==> b.value.lastSeen <= times[0] && b.value.tokens <= c.burst
    requires answers[0] == Touch(c, b, times[0]).1
    ensures var b' := Touch(c, b, times[0]).0;
            Left(Available(c, Some(b'), times[1]), c.refillPerSec, times[1..], answers[1..], 0, i - 1) < 1.0 <==>
            || Left(Available(c, b, times[0]), c.refillPerSec, times, answers, 0, i) < 1.0
            || Left(c.burst, c.refillPerSec, times, answers, 1, i) < 1.0
  {
    var b', rate := Touch(c, b, times[0]).0, c.refillPerSec;
    var had, has := Available(c, b, times[0]), Available(c, Some(b'), times[1]);
    NextAvailable(c, b, times[0], times[1]);
    FirstCounts(answers, i);
    Regroup(rate, times[0], times[1], times[i]);
    hide Available, Touch, Trues, KeyAnswers;
    var spent, first := Trues(answers[1..i]) as real, if answers[0] then 1.0 else 0.0;
    hide Earned;
    var early, late := Earned(rate, times[0], times[1]), Earned(rate, times[1], times[i]);
    LowerOf(had - first + early, c.burst, late - spent);
    assert Left(has, rate, times[1..], answers[1..], 0, i - 1) == has + late - spent;
    assert Left(had, rate, times, answers, 0, i) == had + (early + late) - (first + spent);
    assert Left(c.burst, rate, times, answers, 1, i) == c.burst + late - spent;
  }

  lemma FirstCounts(answers: seq<bool>, i: nat)
    requires 1 <= i <= |answers|
    ensures Trues(answers[0..i]) == (if answers[0] then 1 else 0) + Trues(answers[1..i])
    ensures answers[1..][0..i - 1] == answers[1..i]
  {
    assert answers[0..i][1..] == answers[1..i];
    SliceOfRest(answers, 1, i);
  }

  lemma LowerOf(x: real, y: real, d: real)
    ensures (if x < y then x else y) + d < 1.0 <==> x + d < 1.0 || y + d < 1.0
  {
  }

  lemma Regroup(rate: real, t: real, u: real, v: real)
    ensures Earned(rate, t, u) + Earned(rate, u, v) == Earned(rate, t, v)
  {
  }

  lemma {:induction false} KeyLaw(c: Config, b: Option<Bucket>, times: seq<real>, i: nat)
    requires c.Valid() && Ascending(times) && i < |times|
    requires b.Some? ==> b.value.lastSeen <= times[0] && b.value.tokens <= c.burst
    ensures !KeyAnswers(c, b, times)[i] <==> UsedUpFrom(c, b, times, KeyAnswers(c, b, times), i)
    decreases i
  {
    var answers := KeyAnswers(c, b, times);
    var (b', ok) := Touch(c, b, times[0]);
    var rest := KeyAnswers(c, Some(b'), times[1..]);
    assert answers == [ok] + rest && answers[1..] == rest;
    NextAvailable(c, b, times[0], times[if i == 0 then 0 else 1]);
    if i == 0 {
      assert Left(Available(c, b, times[0]), c.refillPerSec, times, answers, 0, 0) == Available(c, b, times[0]);
    } else {
      KeyLaw(c, Some(b'), times[1..], i - 1);
      StartOfRest(c, b, times, answers, i);
      forall j | 1 <= j <= i
        ensures Left(c.burst, c.refillPerSec, times, answers, j, i)
             == Left(c.burst, c.refillPerSec, times[1..], rest, j - 1, i - 1)
      {
        LeftOfRest(c.burst, c.refillPerSec, times, answers, j, i);
      }
      RestUsedUp(c, times, answers, i);
      hide Left, Available, Touch, KeyAnswers;
    }
  }

  lemma RestUsedUp(c: Config, times: seq<real>, answers: seq<bool>, i: nat)
    requires 1 <= i < |times| == |answers|
    ensures var rest, later, n := times[1..], answers[1..], i - 1;
            (exists j :: 1 <= j <= i && Left(c.burst, c.refillPerSec, times, answers, j, i) < 1.0) <==>
            || Left(c.burst, c.refillPerSec, times, answers, 1, i) < 1.0
            || exists j :: 1 <= j <= n && Left(c.burst, c.refillPerSec, rest, later, j, n) < 1.0
  {
    hide Left;
    var rate, rest, later, n := c.refillPerSec, times[1..], answers[1..], i - 1;
    forall j | 1 <= j <= i
      ensures Left(c.burst, rate, times, answers, j, i) == Left(c.burst, rate, rest, later, j - 1, n)
    {
      LeftOfRest(c.burst, rate, times, answers, j, i);
    }
    if j :| 2 <= j <= i && Left(c.burst, rate, times, answers, j, i) < 1.0 {
      assert Left(c.burst, rate, rest, later, j - 1, n) < 1.0;
    }
    if j :| 1 <= j <= n && Left(c.burst, rate, rest, later, j, n) < 1.0 {
      assert Left(c.burst, rate, times, answers, j + 1, i) < 1.0;
    }
  }

  /**
    A client on its own is refused exactly when, counted from some request of its own, a whole burst and
    all that was earned since are used up.
   */
  lemma RefusedIff(c: Config, times: seq<real>, i: nat)
    requires c.Valid() && Ascending(times) && i < |times|
    ensures !KeyAnswers(c, None, times)[i] <==> UsedUp(c.burst, c.refillPerSec, times, KeyAnswers(c, None, times), i)
  {
    KeyLaw(c, None, times, i);
    hide Left, KeyAnswers;
  }

  /**
    The same for every client of every run, for the limits an operator writes down: with other clients and
    sweeps in between, request i of key is refused exactly when a burst counted from some earlier request
    (or from itself) is used up.
   */
  lemma RunRefusesIff(ratePerMin: int, burst: int, ops: seq<Op>, key: string, i: nat)
    requires Monotone(ops) && NormalBurst(burst) <= 10 * NormalRate(ratePerMin) && i < |Times(ops, key)|
    ensures var answers := Select(ops, Answers(NewConfig(ratePerMin, burst), INIT, ops), key);
            && |answers| == |Times(ops, key)|
            && (!answers[i] <==>
                UsedUp((if burst > 0 then burst else 1) as real,
                       (if ratePerMin > 0 then ratePerMin else 0) as real / 60.0, Times(ops, key), answers, i))
  {
    var c := NewConfig(ratePerMin, burst);
    EvictionInvisible(c, ops);
    IdealIsPerKey(c, map[], ops, key);
    if ops != [] { TimesWithin(ops, key, ops[0].now, ops[|ops| - 1].now); }
    RefusedIff(c, Times(ops, key), i);
    hide UsedUp, KeyAnswers, IdealAnswers, Answers, Select;
  }

  // ---------- when stale buckets go ----------

  /** Right after a sweep every bucket was seen within ten minutes, and no such bucket is lost. */
  lemma SweepKeepsRecent(c: Config, s: State, now: real, key: string)
    ensures var m := Step(c, s, EvictStale(now)).0.buckets;
            key in m <==> key in s.buckets && now - s.buckets[key].lastSeen <= 600.0
  {
  }

  /**
    A call sweeps exactly when it brings a new key a minute or more after the last sweep (the first new key
    only starts the clock); then every other bucket kept was seen within ten minutes. Otherwise no bucket goes.
   */
  lemma CallSweepsIff(c: Config, s: State, key: string, now: real)
    ensures var s' := Step(c, s, Allow(key, now)).0;
            && key in s'.buckets && s'.buckets[key].lastSeen == now
            && if key !in s.buckets && s.lastEvict.Some? && now - s.lastEvict.value >= 60.0 then
                 && s'.lastEvict == Some(now)
                 && forall k :: k in s'.buckets && k != key <==>
                                k in s.buckets && k != key && now - s.buckets[k].lastSeen <= 600.0
               else
                 && s'.buckets.Keys == s.buckets.Keys + {key}
                 && s'.lastEvict == if key !in s.buckets && s.lastEvict.None? then Some(now) else s.lastEvict
  {
  }

  /** No bucket was last seen more than ten minutes before the last sweep. */
  ghost predicate Recent(s: State)
  {
    && (s.buckets != map[] ==> s.lastEvict.Some?)
    && forall k :: k in s.buckets ==> s.lastEvict.Some? && s.lastEvict.value - s.buckets[k].lastSeen <= 600.0
  }

  lemma StepRecent(c: Config, s: State, op: Op)
    requires Recent(s) && (s.lastEvict.Some? ==> s.lastEvict.value <= op.now)
    ensures var s' := Step(c, s, op).0; Recent(s') && (s'.lastEvict.Some? ==> s'.lastEvict.value <= op.now)
  {
    hide Touch;
    if op.Allow? { CallSweepsIff(c, s, op.key, op.now); }
  }

  lemma {:induction false} RunRecent(c: Config, s: State, ops: seq<Op>)
    requires Monotone(ops) && Recent(s) && (s.lastEvict.Some? && ops != [] ==> s.lastEvict.value <= ops[0].now)
    ensures var s' := Run(c, s, ops);
            Recent(s') && (s'.lastEvict.Some? && ops != [] ==> s'.lastEvict.value <= ops[|ops| - 1].now)
    decreases |ops|
  {
    if ops != [] {
      StepRecent(c, s, ops[0]);
      RunRecent(c, Step(c, s, ops[0]).0, ops[1..]);
      hide Step, Recent;
    }
  }

  /**
    The limiter's memory is bounded by its recent traffic: after any call that adds a key, every bucket was
    seen within the last eleven minutes.
   */
  lemma NewKeyBoundsMemory(c: Config, ops: seq<Op>, key: string, now: real, k: string)
    requires Monotone(ops + [Allow(key, now)]) && key !in Run(c, INIT, ops).buckets
    ensures var s := Run(c, INIT, ops + [Allow(key, now)]);
            k in s.buckets ==> now - s.buckets[k].lastSeen <= 660.0
  {
    var all := ops + [Allow(key, now)];
    assert all[|ops|] == Allow(key, now) && all[..|ops|] == ops;
    RunRecent(c, INIT, ops);
    AnswersSplit(c, INIT, ops, [Allow(key, now)]);
    var s := Run(c, INIT, ops);
    assert Run(c, s, [Allow(key, now)]) == Step(c, s, Allow(key, now)).0;
    if ops != [] { assert ops[|ops| - 1] == all[|ops| - 1]; }
    hide Step, Run;
    AddedKey(c, s, key, now, k);
  }

  lemma AddedKey(c: Config, s: State, key: string, now: real, k: string)
    requires Recent(s) && (s.lastEvict.Some? ==> s.lastEvict.value <= now) && key !in s.buckets
    ensures var s' := Step(c, s, Allow(key, now)).0; k in s'.buckets ==> now - s'.buckets[k].lastSeen <= 660.0
  {
    CallSweepsIff(c, s, key, now);
    if k != key && k in Step(c, s, Allow(key, now)).0.buckets { OthersUntouched(c, s, key, now, k); }
    hide Step;
  }

  lemma OthersUntouched(c: Config, s: State, key: string, now: real, k: string)
    requires k != key && k in Step(c, s, Allow(key, now)).0.buckets
    ensures k in s.buckets && Step(c, s, Allow(key, now)).0.buckets[k] == s.buckets[k]
  {
  }
}
