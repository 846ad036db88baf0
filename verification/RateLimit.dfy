/**
  The per-client token-bucket limiter (internal/ratelimit/ratelimit.go) and the
  Retry-After header derived from it (internal/server/server.go).

  Times are seconds, tokens are reals. The clock is taken to be non-decreasing in
  the order in which the lock is acquired.
 */
module RateLimit {
  import opened Wrappers

  const TTL: real := 600.0
  const EVICT_INTERVAL: real := 60.0

  datatype Bucket = Bucket(tokens: real, lastSeen: real)

  datatype Config = Config(refillPerSec: real, burst: real) {
    ghost predicate Valid() { refillPerSec >= 0.0 && burst >= 1.0 }
  }

  datatype State = State(buckets: map<string, Bucket>, lastEvict: Option<real>)

  datatype Op = Allow(key: string, now: real) | EvictStale(now: real)

  const INIT := State(map[], None)

  function NormalRate(ratePerMin: int): int { if ratePerMin > 0 then ratePerMin else 0 }

  function NormalBurst(burst: int): int { if burst <= 0 then 1 else burst }

  function NewConfig(ratePerMin: int, burst: int): Config
  {
    Config(NormalRate(ratePerMin) as real / 60.0, NormalBurst(burst) as real)
  }

  // ---------- one call ----------

  /** Tokens earned in a stretch of time. */
  function Gain(c: Config, elapsed: real): real { elapsed * c.refillPerSec }

  function Refilled(c: Config, b: Bucket, now: real): real
  {
    var elapsed := now - b.lastSeen;
    if elapsed <= 0.0 then b.tokens
    else if b.tokens + Gain(c, elapsed) > c.burst then c.burst
    else b.tokens + Gain(c, elapsed)
  }

  /** A request against one bucket; a missing bucket counts as a full one. */
  function Touch(c: Config, b: Option<Bucket>, now: real): (Bucket, bool)
  {
    match b
    case None => (Bucket(c.burst - 1.0, now), true)
    case Some(b) =>
      var t := Refilled(c, b, now);
      if t >= 1.0 then (Bucket(t - 1.0, now), true) else (Bucket(t, now), false)
  }

  function Lookup(m: map<string, Bucket>, key: string): Option<Bucket>
  {
    if key in m then Some(m[key]) else None
  }

  function Retain(m: map<string, Bucket>, now: real): map<string, Bucket>
  {
    map k | k in m && now - m[k].lastSeen <= TTL :: m[k]
  }

  function Step(c: Config, s: State, op: Op): (State, bool)
  {
    match op
    case EvictStale(now) => (s.(buckets := Retain(s.buckets, now)), false)
    case Allow(key, now) =>
      var (b, ok) := Touch(c, Lookup(s.buckets, key), now);
      var m := s.buckets[key := b];
      if key in s.buckets then (s.(buckets := m), ok)
      else if s.lastEvict.None? then (State(m, Some(now)), ok)
      else if now - s.lastEvict.value >= EVICT_INTERVAL then (State(Retain(m, now), Some(now)), ok)
      else (s.(buckets := m), ok)
  }

  class Limiter {
    var buckets: map<string, Bucket>
    const refillPerSec: real
    const burst: real
    var lastEvict: Option<real>

    ghost function Cfg(): Config { Config(refillPerSec, burst) }

    ghost function View(): State
      reads this
    {
      State(buckets, lastEvict)
    }

    constructor (ratePerMin: int, burst: int)
      ensures View() == INIT
      ensures Cfg() == NewConfig(ratePerMin, burst)
    {
      var b := if burst <= 0 then 1 else burst;
      var refill := 0.0;
      if ratePerMin > 0 {
        refill := ratePerMin as real / 60.0;
      }
      this.refillPerSec := refill;
      this.burst := b as real;
      buckets := map[];
      lastEvict := None;
    }

    method Allow(key: string, now: real) returns (ok: bool)
      modifies this
      ensures (View(), ok) == Step(Cfg(), old(View()), Op.Allow(key, now))
    {
      if key !in buckets {
        buckets := buckets[key := Bucket(burst - 1.0, now)];
        if lastEvict.None? {
          lastEvict := Some(now);
        } else if now - lastEvict.value >= EVICT_INTERVAL {
          lastEvict := Some(now);
          EvictStale(now);
        }
        return true;
      }
      var b := buckets[key];
      var elapsed := now - b.lastSeen;
      if elapsed > 0.0 {
        b := b.(tokens := b.tokens + elapsed * refillPerSec);
        if b.tokens > burst {
          b := b.(tokens := burst);
        }
      }
      b := b.(lastSeen := now);
      if b.tokens >= 1.0 {
        b := b.(tokens := b.tokens - 1.0);
        buckets := buckets[key := b];
        return true;
      }
      buckets := buckets[key := b];
      return false;
    }

    method EvictStale(now: real)
      modifies this
      ensures View() == Step(Cfg(), old(View()), Op.EvictStale(now)).0
    {
      var todo := buckets.Keys;
      ghost var before := buckets;
      while todo != {}
        invariant lastEvict == old(lastEvict)
        invariant todo <= buckets.Keys <= before.Keys
        invariant forall k :: k in buckets ==> buckets[k] == before[k]
        invariant forall k :: k in before && k !in todo ==> (k in buckets <==> now - before[k].lastSeen <= TTL)
        decreases todo
      {
        var k :| k in todo;
        if now - buckets[k].lastSeen > TTL {
          buckets := buckets - {k};
        }
        todo := todo - {k};
      }
      assert buckets == Retain(before, now);
    }
  }

  // ---------- whole runs ----------

  ghost predicate Monotone(ops: seq<Op>)
  {
    forall i, j :: 0 <= i < j < |ops| ==> ops[i].now <= ops[j].now
  }

  function Run(c: Config, s: State, ops: seq<Op>): State
    decreases |ops|
  {
    if ops == [] then s else Run(c, Step(c, s, ops[0]).0, ops[1..])
  }

  /** One answer per operation; an eviction answers false. */
  function Answers(c: Config, s: State, ops: seq<Op>): (r: seq<bool>)
    ensures |r| == |ops|
    decreases |ops|
  {
    if ops == [] then [] else
    var (s', ok) := Step(c, s, ops[0]);
    [ok] + Answers(c, s', ops[1..])
  }

  /** The reference: a limiter that keeps every bucket for ever. */
  function IdealAnswers(c: Config, m: map<string, Bucket>, ops: seq<Op>): (r: seq<bool>)
    ensures |r| == |ops|
    decreases |ops|
  {
    if ops == [] then [] else
    match ops[0]
    case EvictStale(_) => [false] + IdealAnswers(c, m, ops[1..])
    case Allow(key, now) =>
      var (b, ok) := Touch(c, Lookup(m, key), now);
      [ok] + IdealAnswers(c, m[key := b], ops[1..])
  }

  /** The reference for a single key: its own request times and nothing else. */
  function KeyAnswers(c: Config, b: Option<Bucket>, times: seq<real>): (r: seq<bool>)
    ensures |r| == |times|
    decreases |times|
  {
    if times == [] then [] else
    var (b', ok) := Touch(c, b, times[0]);
    [ok] + KeyAnswers(c, Some(b'), times[1..])
  }

  function Times(ops: seq<Op>, key: string): seq<real>
  {
    if ops == [] then []
    else if ops[0].Allow? && ops[0].key == key then [ops[0].now] + Times(ops[1..], key)
    else Times(ops[1..], key)
  }

  function Select(ops: seq<Op>, answers: seq<bool>, key: string): seq<bool>
    requires |ops| == |answers|
  {
    if ops == [] then []
    else if ops[0].Allow? && ops[0].key == key then [answers[0]] + Select(ops[1..], answers[1..], key)
    else Select(ops[1..], answers[1..], key)
  }

  /** Every bucket of a reachable state holds between 0 and burst tokens. */
  ghost predicate Sound(c: Config, m: map<string, Bucket>, clock: real)
  {
    forall k :: k in m ==> 0.0 <= m[k].tokens <= c.burst && m[k].lastSeen <= clock
  }

  /** The limiter's buckets against the never-evicting ones. */
  ghost predicate Simulates(m: map<string, Bucket>, ideal: map<string, Bucket>, clock: real)
  {
    && m.Keys <= ideal.Keys
    && (forall k :: k in m ==> m[k] == ideal[k])
    && (forall k :: k in ideal && k !in m ==> clock - ideal[k].lastSeen > TTL)
  }

  lemma GainMono(c: Config, a: real, b: real)
    requires c.Valid() && a <= b
    ensures Gain(c, a) <= Gain(c, b)
    ensures 0.0 <= a ==> 0.0 <= Gain(c, a)
  {
  }

  lemma GainSplit(c: Config, t: real, u: real, v: real)
    ensures Gain(c, v - t) == Gain(c, u - t) + Gain(c, v - u)
  {
  }

  lemma TouchSound(c: Config, b: Bucket, now: real)
    requires c.Valid() && 0.0 <= b.tokens <= c.burst && b.lastSeen <= now
    ensures 0.0 <= Refilled(c, b, now) <= c.burst
    ensures var (b', ok) := Touch(c, Some(b), now); 0.0 <= b'.tokens <= c.burst && b'.lastSeen == now
  {
    GainMono(c, now - b.lastSeen, now - b.lastSeen);
    hide Gain;
  }

  /** A bucket idle for longer than TTL has refilled, so losing it changes nothing. */
  lemma StaleIsFull(c: Config, b: Bucket, now: real)
    requires c.Valid() && c.burst <= Gain(c, TTL)
    requires 0.0 <= b.tokens && now - b.lastSeen > TTL
    ensures Touch(c, Some(b), now) == Touch(c, None, now)
  {
    GainMono(c, TTL, now - b.lastSeen);
    hide Gain;
  }

  lemma StepSound(c: Config, s: State, op: Op, clock: real)
    requires c.Valid() && Sound(c, s.buckets, clock) && clock <= op.now
    ensures Sound(c, Step(c, s, op).0.buckets, op.now)
  {
    if op.Allow? && op.key in s.buckets {
      TouchSound(c, s.buckets[op.key], op.now);
    }
  }

  lemma {:induction false} RunSound(c: Config, s: State, ops: seq<Op>, clock: real)
    requires c.Valid() && Sound(c, s.buckets, clock) && Monotone(ops)
    requires ops != [] ==> clock <= ops[0].now
    ensures Sound(c, Run(c, s, ops).buckets, if ops == [] then clock else ops[|ops| - 1].now)
    decreases |ops|
  {
    if ops != [] {
      StepSound(c, s, ops[0], clock);
      RunSound(c, Step(c, s, ops[0]).0, ops[1..], ops[0].now);
    }
  }

  lemma {:induction false} SimulationRun(c: Config, s: State, ideal: map<string, Bucket>, ops: seq<Op>, clock: real)
    requires c.Valid() && c.burst <= Gain(c, TTL)
    requires Sound(c, ideal, clock) && Simulates(s.buckets, ideal, clock)
    requires Monotone(ops) && (ops != [] ==> clock <= ops[0].now)
    ensures Answers(c, s, ops) == IdealAnswers(c, ideal, ops)
    decreases |ops|
  {
    if ops != [] {
      var (s', ok) := Step(c, s, ops[0]);
      match ops[0]
      case EvictStale(now) =>
        SimulationRun(c, s', ideal, ops[1..], now);
      case Allow(key, now) =>
        var (b, okI) := Touch(c, Lookup(ideal, key), now);
        if key in ideal {
          TouchSound(c, ideal[key], now);
          if key !in s.buckets {
            StaleIsFull(c, ideal[key], now);
          }
        }
        SimulationRun(c, s', ideal[key := b], ops[1..], now);
    }
  }

  /** Eviction cannot be observed once the idle time refills a whole bucket. */
  lemma EvictionInvisible(c: Config, ops: seq<Op>)
    requires c.Valid() && c.burst <= Gain(c, TTL) && Monotone(ops)
    ensures Answers(c, INIT, ops) == IdealAnswers(c, map[], ops)
  {
    if ops != [] {
      SimulationRun(c, INIT, map[], ops, ops[0].now);
    }
  }

  // ---------- one key on its own ----------

  lemma {:induction false} IdealIsPerKey(c: Config, m: map<string, Bucket>, ops: seq<Op>, key: string)
    ensures Select(ops, IdealAnswers(c, m, ops), key) == KeyAnswers(c, Lookup(m, key), Times(ops, key))
    decreases |ops|
  {
    if ops != [] {
      match ops[0]
      case EvictStale(_) =>
        assert IdealAnswers(c, m, ops)[1..] == IdealAnswers(c, m, ops[1..]);
        IdealIsPerKey(c, m, ops[1..], key);
      case Allow(k, now) =>
        var (b, ok) := Touch(c, Lookup(m, k), now);
        var m' := m[k := b];
        assert IdealAnswers(c, m, ops)[1..] == IdealAnswers(c, m', ops[1..]);
        IdealIsPerKey(c, m', ops[1..], key);
        if k == key {
          assert Times(ops, key)[1..] == Times(ops[1..], key);
        }
    }
  }

  /** What one client is told depends on its own request times only, whatever other clients and evictions do. */
  lemma OwnTimesDecide(c: Config, ops: seq<Op>, ops': seq<Op>, key: string)
    requires c.Valid() && c.burst <= Gain(c, TTL)
    requires Monotone(ops) && Monotone(ops') && Times(ops, key) == Times(ops', key)
    ensures Select(ops, Answers(c, INIT, ops), key) == Select(ops', Answers(c, INIT, ops'), key)
  {
    EvictionInvisible(c, ops);
    EvictionInvisible(c, ops');
    IdealIsPerKey(c, map[], ops, key);
    IdealIsPerKey(c, map[], ops', key);
  }

  // ---------- the token bound over a window ----------

  function Trues(answers: seq<bool>): nat
  {
    if answers == [] then 0 else (if answers[0] then 1 else 0) + Trues(answers[1..])
  }

  /** How many requests of key were let through. */
  function Admitted(ops: seq<Op>, answers: seq<bool>, key: string): nat
    requires |ops| == |answers|
  {
    Trues(Select(ops, answers, key))
  }

  function IdealRun(c: Config, m: map<string, Bucket>, ops: seq<Op>): map<string, Bucket>
    decreases |ops|
  {
    if ops == [] then m else
    match ops[0]
    case EvictStale(_) => IdealRun(c, m, ops[1..])
    case Allow(key, now) => IdealRun(c, m[key := Touch(c, Lookup(m, key), now).0], ops[1..])
  }

  lemma {:induction false} IdealSplit(c: Config, m: map<string, Bucket>, a: seq<Op>, b: seq<Op>)
    ensures IdealAnswers(c, m, a + b) == IdealAnswers(c, m, a) + IdealAnswers(c, IdealRun(c, m, a), b)
    decreases |a|
  {
    if a == [] {
      assert a + b == b;
    } else {
      assert (a + b)[1..] == a[1..] + b;
      match a[0]
      case EvictStale(_) => IdealSplit(c, m, a[1..], b);
      case Allow(key, now) => IdealSplit(c, m[key := Touch(c, Lookup(m, key), now).0], a[1..], b);
    }
  }

  lemma {:induction false} IdealRunSound(c: Config, m: map<string, Bucket>, ops: seq<Op>, clock: real)
    requires c.Valid() && Sound(c, m, clock) && Monotone(ops)
    requires ops != [] ==> clock <= ops[0].now
    ensures Sound(c, IdealRun(c, m, ops), if ops == [] then clock else ops[|ops| - 1].now)
    decreases |ops|
  {
    if ops != [] {
      match ops[0]
      case EvictStale(now) => IdealRunSound(c, m, ops[1..], now);
      case Allow(key, now) =>
        if key in m { TouchSound(c, m[key], now); }
        IdealRunSound(c, m[key := Touch(c, Lookup(m, key), now).0], ops[1..], now);
    }
  }

  function Available(c: Config, b: Option<Bucket>, now: real): real
  {
    if b.None? then c.burst else Refilled(c, b.value, now)
  }

  lemma AvailableGrows(c: Config, b: Bucket, t: real, u: real)
    requires c.Valid() && 0.0 <= b.tokens <= c.burst && b.lastSeen <= t <= u
    ensures Refilled(c, b, u) <= Refilled(c, b, t) + Gain(c, u - t)
  {
    GainMono(c, t - b.lastSeen, u - b.lastSeen);
    GainMono(c, u - t, u - t);
    GainSplit(c, b.lastSeen, t, u);
    hide Gain;
  }

  ghost predicate Within(times: seq<real>, t0: real, t1: real)
  {
    && t0 <= t1
    && (forall i :: 0 <= i < |times| ==> t0 <= times[i] <= t1)
    && forall i, j :: 0 <= i < j < |times| ==> times[i] <= times[j]
  }

  lemma {:induction false} SpendBound(c: Config, b: Option<Bucket>, times: seq<real>, t0: real, t1: real)
    requires c.Valid() && Within(times, t0, t1)
    requires b.Some? ==> 0.0 <= b.value.tokens <= c.burst && b.value.lastSeen <= t0
    ensures Trues(KeyAnswers(c, b, times)) as real <= Available(c, b, t0) + Gain(c, t1 - t0)
    decreases |times|
  {
    GainMono(c, t1 - t0, t1 - t0);
    if b.Some? { TouchSound(c, b.value, t0); }
    if times != [] {
      var t := times[0];
      GainMono(c, t - t0, t - t0);
      GainSplit(c, t0, t, t1);
      if b.Some? {
        AvailableGrows(c, b.value, t0, t);
        TouchSound(c, b.value, t);
      }
      var (b', ok) := Touch(c, b, t);
      assert KeyAnswers(c, b, times)[1..] == KeyAnswers(c, Some(b'), times[1..]);
      SpendBound(c, Some(b'), times[1..], t, t1);
      hide Gain;
    }
  }

  lemma {:induction false} TimesWithin(ops: seq<Op>, key: string, t0: real, t1: real)
    requires Monotone(ops) && t0 <= t1 && forall i :: 0 <= i < |ops| ==> t0 <= ops[i].now <= t1
    ensures Within(Times(ops, key), t0, t1)
    decreases |ops|
  {
    if ops != [] {
      TimesWithin(ops[1..], key, ops[0].now, t1);
    }
  }

  /** Requests i..j of a run, counted for one key against burst plus the refill of the window they span. */
  ghost predicate WindowBounded(c: Config, ops: seq<Op>, i: nat, j: nat, key: string)
    requires i < j <= |ops|
  {
    Admitted(ops[i..j], Answers(c, INIT, ops)[i..j], key) as real
    <= c.burst + Gain(c, ops[j - 1].now - ops[i].now)
  }

  lemma WindowAnswers(c: Config, ops: seq<Op>, i: nat, j: nat) returns (m: map<string, Bucket>)
    requires c.Valid() && c.burst <= Gain(c, TTL) && Monotone(ops)
    requires i < j <= |ops|
    ensures Answers(c, INIT, ops)[i..j] == IdealAnswers(c, m, ops[i..j])
    ensures Sound(c, m, ops[i].now)
  {
    EvictionInvisible(c, ops);
    m := IdealRun(c, map[], ops[..i]);
    assert ops == ops[..i] + ops[i..] && ops[i..] == ops[i..j] + ops[j..];
    IdealSplit(c, map[], ops[..i], ops[i..]);
    IdealSplit(c, m, ops[i..j], ops[j..]);
    IdealRunSound(c, map[], ops[..i], ops[0].now);
  }

  lemma WindowBound(c: Config, ops: seq<Op>, i: nat, j: nat, key: string)
    requires c.Valid() && c.burst <= Gain(c, TTL) && Monotone(ops)
    requires i < j <= |ops|
    ensures WindowBounded(c, ops, i, j, key)
  {
    var m := WindowAnswers(c, ops, i, j);
    IdealIsPerKey(c, m, ops[i..j], key);
    TimesWithin(ops[i..j], key, ops[i].now, ops[j - 1].now);
    SpendBound(c, Lookup(m, key), Times(ops[i..j], key), ops[i].now, ops[j - 1].now);
    hide Gain;
    AvailableCapped(c, m, key, ops[i].now);
  }

  lemma AvailableCapped(c: Config, m: map<string, Bucket>, key: string, now: real)
    requires c.Valid() && Sound(c, m, now)
    ensures Available(c, Lookup(m, key), now) <= c.burst
  {
    if key in m { TouchSound(c, m[key], now); }
  }

  // ---------- both facts fail exactly when the bucket cannot refill within TTL ----------

  function Repeat<T>(x: T, n: nat): (r: seq<T>)
    ensures |r| == n && forall i :: 0 <= i < n ==> r[i] == x
  {
    if n == 0 then [] else [x] + Repeat(x, n - 1)
  }

  lemma {:induction false} AnswersSplit(c: Config, s: State, a: seq<Op>, b: seq<Op>)
    ensures Answers(c, s, a + b) == Answers(c, s, a) + Answers(c, Run(c, s, a), b)
    ensures Run(c, s, a + b) == Run(c, Run(c, s, a), b)
    decreases |a|
  {
    if a == [] {
      assert a + b == b;
    } else {
      assert (a + b)[1..] == a[1..] + b;
      AnswersSplit(c, Step(c, s, a[0]).0, a[1..], b);
    }
  }

  lemma {:induction false} BurstAdmits(c: Config, s: State, key: string, now: real, n: nat)
    requires c.Valid() && key in s.buckets && s.buckets[key].lastSeen == now && s.buckets[key].tokens >= n as real
    ensures forall i :: 0 <= i < n ==> Answers(c, s, Repeat(Allow(key, now), n))[i]
    ensures Run(c, s, Repeat(Allow(key, now), n)) ==
            s.(buckets := s.buckets[key := Bucket(s.buckets[key].tokens - n as real, now)])
    decreases n
  {
    if n == 0 {
      assert s.buckets[key := s.buckets[key]] == s.buckets;
    } else {
      var ops := Repeat(Allow(key, now), n);
      var s' := Step(c, s, ops[0]).0;
      BurstAdmits(c, s', key, now, n - 1);
      assert ops[1..] == Repeat(Allow(key, now), n - 1);
    }
  }

  /** A key without a bucket is let through a whole burst at once, and then has an empty bucket. */
  lemma FreshBurst(c: Config, s: State, key: string, now: real, n: nat)
    requires c.Valid() && c.burst == n as real && key !in s.buckets
    ensures forall i :: 0 <= i < n ==> Answers(c, s, Repeat(Allow(key, now), n))[i]
    ensures var s' := Run(c, s, Repeat(Allow(key, now), n));
            key in s'.buckets && s'.buckets[key] == Bucket(0.0, now)
  {
    var ops := Repeat(Allow(key, now), n);
    var s' := Step(c, s, ops[0]).0;
    BurstAdmits(c, s', key, now, n - 1);
    assert ops[1..] == Repeat(Allow(key, now), n - 1);
  }

  /** Spend a burst at time 0, evict at t, spend another burst at t. */
  function DoubleBurst(key: string, n: nat, t: real): seq<Op>
  {
    Repeat(Allow(key, 0.0), n) + ([EvictStale(t)] + Repeat(Allow(key, t), n))
  }

  lemma {:induction false} SelectAll(ops: seq<Op>, answers: seq<bool>, key: string)
    requires |ops| == |answers|
    requires forall i :: 0 <= i < |ops| && ops[i].Allow? ==> ops[i].key == key && answers[i]
    ensures Select(ops, answers, key) == Repeat(true, |Times(ops, key)|)
    decreases |ops|
  {
    if ops != [] {
      SelectAll(ops[1..], answers[1..], key);
    }
  }

  lemma {:induction false} TimesConcat(a: seq<Op>, b: seq<Op>, key: string)
    ensures Times(a + b, key) == Times(a, key) + Times(b, key)
    decreases |a|
  {
    if a == [] {
      assert a + b == b;
    } else {
      assert (a + b)[1..] == a[1..] + b;
      TimesConcat(a[1..], b, key);
    }
  }

  lemma {:induction false} TimesRepeat(key: string, t: real, n: nat)
    ensures Times(Repeat(Allow(key, t), n), key) == Repeat(t, n)
  {
    if n > 0 {
      assert Repeat(Allow(key, t), n)[1..] == Repeat(Allow(key, t), n - 1);
      TimesRepeat(key, t, n - 1);
    }
  }

  lemma DoubleBurstAllowed(c: Config, key: string, n: nat, t: real)
    requires c.Valid() && c.burst == n as real && t > TTL
    ensures var ops := DoubleBurst(key, n, t);
            |Answers(c, INIT, ops)| == |ops| && forall i :: 0 <= i < |ops| && ops[i].Allow? ==> Answers(c, INIT, ops)[i]
  {
    var a, b, e := Repeat(Allow(key, 0.0), n), Repeat(Allow(key, t), n), [EvictStale(t)];
    var s := Run(c, INIT, a);
    FreshBurst(c, INIT, key, 0.0, n);
    var s' := Step(c, s, EvictStale(t)).0;
    assert key !in s'.buckets && !Step(c, s, EvictStale(t)).1;
    FreshBurst(c, s', key, t, n);
    AnswersSplit(c, INIT, a, e + b);
    assert (e + b)[1..] == b;
    assert Answers(c, s, e + b) == [false] + Answers(c, s', b);
    hide Step, Run, Answers, Repeat;
  }

  lemma DoubleBurstAdmitted(c: Config, key: string, n: nat, t: real)
    requires c.Valid() && c.burst == n as real && t > TTL
    ensures var ops := DoubleBurst(key, n, t);
            && Monotone(ops) && ops != [] && ops[0].now == 0.0 && ops[|ops| - 1].now == t
            && Times(ops, key) == Repeat(0.0, n) + Repeat(t, n)
            && Select(ops, Answers(c, INIT, ops), key) == Repeat(true, n + n)
  {
    DoubleBurstAllowed(c, key, n, t);
    hide Answers;
    var a, b, e := Repeat(Allow(key, 0.0), n), Repeat(Allow(key, t), n), [EvictStale(t)];
    var ops := DoubleBurst(key, n, t);
    assert (e + b)[1..] == b;
    SelectAll(ops, Answers(c, INIT, ops), key);
    hide Select;
    TimesConcat(a, e + b, key);
    TimesRepeat(key, 0.0, n);
    TimesRepeat(key, t, n);
  }

  lemma {:induction false} KeyBurst(c: Config, b: Bucket, t: real, n: nat, rest: seq<real>)
    requires c.Valid() && b.lastSeen == t && b.tokens >= n as real
    ensures KeyAnswers(c, Some(b), Repeat(t, n) + rest)
         == Repeat(true, n) + KeyAnswers(c, Some(Bucket(b.tokens - n as real, t)), rest)
    decreases n
  {
    if n == 0 {
      assert Repeat(t, n) + rest == rest;
    } else {
      var times := Repeat(t, n) + rest;
      assert times[1..] == Repeat(t, n - 1) + rest;
      KeyBurst(c, Bucket(b.tokens - 1.0, t), t, n - 1, rest);
    }
  }

  lemma {:induction false} KeyRunsDry(c: Config, b: Bucket, t: real, n: nat)
    requires c.Valid() && n > 0 && Refilled(c, b, t) < n as real
    ensures false in KeyAnswers(c, Some(b), Repeat(t, n))
    decreases n
  {
    var (b', ok) := Touch(c, Some(b), t);
    assert Repeat(t, n)[1..] == Repeat(t, n - 1);
    var r := KeyAnswers(c, Some(b), Repeat(t, n));
    assert r[0] == ok;
    if ok {
      KeyRunsDry(c, b', t, n - 1);
      assert r[1..] == KeyAnswers(c, Some(b'), Repeat(t, n - 1));
    }
  }

  /** If a burst outlasts TTL, some time past TTL still leaves the drained bucket short of a burst. */
  function Shortfall(c: Config): (t: real)
    requires c.Valid() && c.burst > Gain(c, TTL)
    ensures t > TTL && Gain(c, t) < c.burst
  {
    if c.refillPerSec == 0.0 then TTL + 1.0
    else
      var d := c.burst / c.refillPerSec;
      assert d * c.refillPerSec == c.burst;
      var t := (TTL + d) / 2.0;
      assert t * c.refillPerSec == (TTL * c.refillPerSec + c.burst) / 2.0;
      assert d > TTL;
      t
  }

  lemma KeyFallsShort(c: Config, n: nat, t: real)
    requires c.Valid() && c.burst == n as real && t > 0.0 && 0.0 <= Gain(c, t) < c.burst
    ensures false in KeyAnswers(c, None, Repeat(0.0, n) + Repeat(t, n))
  {
    var times := Repeat(0.0, n) + Repeat(t, n);
    var b, dry := Bucket(c.burst - 1.0, 0.0), Bucket(0.0, 0.0);
    assert times[1..] == Repeat(0.0, n - 1) + Repeat(t, n);
    KeyBurst(c, b, 0.0, n - 1, Repeat(t, n));
    hide Gain;
    KeyRunsDry(c, dry, t, n);
    assert KeyAnswers(c, None, times) == [true] + (Repeat(true, n - 1) + KeyAnswers(c, Some(dry), Repeat(t, n)));
  }

  lemma ShortBucketDiffers(c: Config, key: string, n: nat)
    requires c.Valid() && c.burst == n as real && c.burst > Gain(c, TTL)
    ensures var ops := DoubleBurst(key, n, Shortfall(c));
            Monotone(ops) && Answers(c, INIT, ops) != IdealAnswers(c, map[], ops)
  {
    var t := Shortfall(c);
    GainMono(c, t, t);
    KeyFallsShort(c, n, t);
    hide Gain, Shortfall, DoubleBurst, KeyAnswers, Monotone;
    DoubleBurstAdmitted(c, key, n, t);
    IdealIsPerKey(c, map[], DoubleBurst(key, n, t), key);
  }

  lemma ShortBucketOverspends(c: Config, key: string, n: nat)
    requires c.Valid() && c.burst == n as real && c.burst > Gain(c, TTL)
    ensures var ops := DoubleBurst(key, n, Shortfall(c));
            Monotone(ops) && ops != [] && !WindowBounded(c, ops, 0, |ops|, key)
  {
    var t := Shortfall(c);
    assert Gain(c, t - 0.0) < c.burst;
    hide Gain, Shortfall, DoubleBurst, Answers, Monotone;
    DoubleBurstAdmitted(c, key, n, t);
    var ops := DoubleBurst(key, n, t);
    assert ops[0..|ops|] == ops && Answers(c, INIT, ops)[0..|ops|] == Answers(c, INIT, ops);
    TruesRepeat(n + n);
  }

  lemma {:induction false} TruesRepeat(n: nat)
    ensures Trues(Repeat(true, n)) == n
  {
    if n > 0 {
      assert Repeat(true, n)[1..] == Repeat(true, n - 1);
      TruesRepeat(n - 1);
    }
  }

  /**
    For the limits an operator writes down: evicting idle buckets is unobservable,
    in every run, exactly when the burst is at most ten minutes' worth of requests.
   */
  lemma EvictionInvisibleIff(ratePerMin: int, burst: int)
    ensures var c := NewConfig(ratePerMin, burst);
            (forall ops :: Monotone(ops) ==> Answers(c, INIT, ops) == IdealAnswers(c, map[], ops))
            <==> NormalBurst(burst) <= 10 * NormalRate(ratePerMin)
  {
    var c := NewConfig(ratePerMin, burst);
    if NormalBurst(burst) <= 10 * NormalRate(ratePerMin) {
      forall ops | Monotone(ops)
        ensures Answers(c, INIT, ops) == IdealAnswers(c, map[], ops)
      {
        EvictionInvisible(c, ops);
      }
    } else {
      ShortBucketDiffers(c, "", NormalBurst(burst));
    }
  }

  /** The same condition decides the token bound: burst plus refill, for every key, run and window. */
  lemma WindowBoundIff(ratePerMin: int, burst: int)
    ensures var c := NewConfig(ratePerMin, burst);
            (forall ops, i: nat, j: nat, key :: Monotone(ops) && i < j <= |ops| ==> WindowBounded(c, ops, i, j, key))
            <==> NormalBurst(burst) <= 10 * NormalRate(ratePerMin)
  {
    var c := NewConfig(ratePerMin, burst);
    if NormalBurst(burst) <= 10 * NormalRate(ratePerMin) {
      forall ops, i: nat, j: nat, key | Monotone(ops) && i < j <= |ops|
        ensures WindowBounded(c, ops, i, j, key)
      {
        WindowBound(c, ops, i, j, key);
      }
    } else {
      ShortBucketOverspends(c, "", NormalBurst(burst));
    }
  }

  // ---------- Retry-After ----------

  /** The header value: whole seconds, computed once from the configured rate. */
  function RetryAfter(ratePerMin: int): int
  {
    if ratePerMin > 0 && 60 / ratePerMin > 1 then 60 / ratePerMin else 1
  }

  /** A run in which key is refused at t, stays quiet during mid, and asks again at u. */
  ghost predicate RefusedThenQuiet(c: Config, ops: seq<Op>, mid: seq<Op>, key: string, t: real, u: real)
  {
    && Monotone(ops + [Allow(key, t)] + mid + [Allow(key, u)])
    && !Step(c, Run(c, INIT, ops), Allow(key, t)).1
    && forall i :: 0 <= i < |mid| && mid[i].Allow? ==> mid[i].key != key
  }

  ghost predicate AdmittedAgain(c: Config, ops: seq<Op>, mid: seq<Op>, key: string, t: real, u: real)
  {
    Step(c, Run(c, INIT, ops + [Allow(key, t)] + mid), Allow(key, u)).1
  }

  lemma {:induction false} QuietKey(c: Config, s: State, mid: seq<Op>, key: string)
    requires key in s.buckets
    requires forall i :: 0 <= i < |mid| && mid[i].Allow? ==> mid[i].key != key
    ensures var s' := Run(c, s, mid); key in s'.buckets ==> s'.buckets[key] == s.buckets[key]
    decreases |mid|
  {
    if mid != [] {
      var s' := Step(c, s, mid[0]).0;
      if key in s'.buckets {
        QuietKey(c, s', mid[1..], key);
      } else {
        StaysGone(c, s', mid[1..], key);
      }
    }
  }

  lemma {:induction false} StaysGone(c: Config, s: State, mid: seq<Op>, key: string)
    requires key !in s.buckets
    requires forall i :: 0 <= i < |mid| && mid[i].Allow? ==> mid[i].key != key
    ensures key !in Run(c, s, mid).buckets
    decreases |mid|
  {
    if mid != [] {
      StaysGone(c, Step(c, s, mid[0]).0, mid[1..], key);
    }
  }

  lemma RefusedBucket(c: Config, ops: seq<Op>, mid: seq<Op>, key: string, t: real, u: real)
    requires c.Valid() && RefusedThenQuiet(c, ops, mid, key, t, u)
    ensures var s := Run(c, INIT, ops);
            var s' := Run(c, INIT, ops + [Allow(key, t)] + mid);
            && t <= u && key in s.buckets && 0.0 <= Refilled(c, s.buckets[key], t) < 1.0
            && (key in s'.buckets ==> s'.buckets[key] == Bucket(Refilled(c, s.buckets[key], t), t))
  {
    var all := ops + [Allow(key, t)] + mid + [Allow(key, u)];
    assert all[|ops|] == Allow(key, t) && all[|all| - 1] == Allow(key, u);
    assert forall i :: 0 <= i < |ops| ==> all[i] == ops[i];
    RunSound(c, INIT, ops, if ops == [] then t else ops[0].now);
    var s := Run(c, INIT, ops);
    TouchSound(c, s.buckets[key], t);
    AnswersSplit(c, INIT, ops, [Allow(key, t)]);
    AnswersSplit(c, INIT, ops + [Allow(key, t)], mid);
    var s1 := Step(c, s, Allow(key, t)).0;
    assert Run(c, s, [Allow(key, t)]) == s1;
    QuietKey(c, s1, mid, key);
  }

  /** A refused client that waits long enough for one token is let in. */
  lemma OneTokenSuffices(ratePerMin: int, burst: int, ops: seq<Op>, mid: seq<Op>, key: string, t: real, u: real)
    requires ratePerMin > 0
    requires RefusedThenQuiet(NewConfig(ratePerMin, burst), ops, mid, key, t, u)
    requires u >= t + 60.0 / ratePerMin as real
    ensures AdmittedAgain(NewConfig(ratePerMin, burst), ops, mid, key, t, u)
  {
    var c := NewConfig(ratePerMin, burst);
    RefusedBucket(c, ops, mid, key, t, u);
    var s' := Run(c, INIT, ops + [Allow(key, t)] + mid);
    WaitForOne(ratePerMin, burst, u - t);
    hide Gain;
  }

  lemma WaitForOne(ratePerMin: int, burst: int, wait: real)
    requires ratePerMin > 0 && wait >= 60.0 / ratePerMin as real
    ensures wait > 0.0 && Gain(NewConfig(ratePerMin, burst), wait) >= 1.0
  {
    var c := NewConfig(ratePerMin, burst);
    var r := ratePerMin as real;
    var w := 60.0 / r;
    assert w * r == 60.0;
    assert Gain(c, w) == w * (r / 60.0) == w * r / 60.0;
    GainMono(c, w, wait);
  }

  ghost predicate HeaderHonoured(ratePerMin: int, burst: int)
  {
    forall ops, mid, key, t, u ::
      RefusedThenQuiet(NewConfig(ratePerMin, burst), ops, mid, key, t, u) && u >= t + RetryAfter(ratePerMin) as real
      ==> AdmittedAgain(NewConfig(ratePerMin, burst), ops, mid, key, t, u)
  }

  /** The run that exposes a header rounded down: a burst at 0, a refusal at 0, a retry on the advertised second. */
  lemma EarlyRetryRefused(ratePerMin: int, burst: int)
    requires 0 < ratePerMin < 60 && 60 % ratePerMin != 0
    ensures var u := RetryAfter(ratePerMin) as real;
            var ops := Repeat(Allow("", 0.0), NormalBurst(burst));
            && RefusedThenQuiet(NewConfig(ratePerMin, burst), ops, [], "", 0.0, u)
            && !AdmittedAgain(NewConfig(ratePerMin, burst), ops, [], "", 0.0, u)
  {
    var c := NewConfig(ratePerMin, burst);
    var n := NormalBurst(burst);
    var ops := Repeat(Allow("", 0.0), n);
    var k := RetryAfter(ratePerMin);
    FreshBurst(c, INIT, "", 0.0, n);
    AnswersSplit(c, INIT, ops, [Allow("", 0.0)]);
    var s := Run(c, INIT, ops);
    var s1 := Step(c, s, Allow("", 0.0)).0;
    assert Run(c, s, [Allow("", 0.0)]) == s1;
    assert ops + [Allow("", 0.0)] + [] == ops + [Allow("", 0.0)];
    assert s1.buckets[""] == Bucket(0.0, 0.0);
    ShortWait(ratePerMin, burst);
    hide Gain;
  }

  lemma ShortWait(ratePerMin: int, burst: int)
    requires 0 < ratePerMin < 60 && 60 % ratePerMin != 0
    ensures 0.0 <= Gain(NewConfig(ratePerMin, burst), RetryAfter(ratePerMin) as real) < 1.0
  {
    var k := 60 / ratePerMin;
    assert k * ratePerMin == 60 - 60 % ratePerMin;
    assert RetryAfter(ratePerMin) == k;
    assert (k * ratePerMin) as real == k as real * ratePerMin as real;
    assert k as real * (ratePerMin as real / 60.0) == k as real * ratePerMin as real / 60.0;
  }

  /** The integer header is a promise the limiter keeps exactly for these rates. */
  lemma HeaderHonouredIff(ratePerMin: int, burst: int)
    requires ratePerMin > 0
    ensures HeaderHonoured(ratePerMin, burst) <==> ratePerMin >= 60 || 60 % ratePerMin == 0
  {
    if ratePerMin >= 60 || 60 % ratePerMin == 0 {
      var k := 60 / ratePerMin;
      assert RetryAfter(ratePerMin) as real >= 60.0 / ratePerMin as real by {
        if ratePerMin < 60 {
          assert k * ratePerMin == 60;
          assert k as real * ratePerMin as real == 60.0;
        }
      }
      forall ops, mid, key, t, u |
        RefusedThenQuiet(NewConfig(ratePerMin, burst), ops, mid, key, t, u) && u >= t + RetryAfter(ratePerMin) as real
        ensures AdmittedAgain(NewConfig(ratePerMin, burst), ops, mid, key, t, u)
      {
        OneTokenSuffices(ratePerMin, burst, ops, mid, key, t, u);
      }
    } else {
      EarlyRetryRefused(ratePerMin, burst);
    }
  }
}
