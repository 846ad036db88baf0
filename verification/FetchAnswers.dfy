/**
  What a fetch answers, over whole runs of the shared-fetch protocol (internal/fetch/fetch.go, fetchDirect
  and maybeCache): which origin reply every result and every cache entry comes from, and what every reply
  comes to. Everything is said in terms of the labels of the run, the origin's replies above all.
 */
module FetchAnswers {
  import opened Wrappers
  import opened FetchCache
  import opened FetchFlight

  // ---------- what the labels say ----------

  /** By label k, flight f's challenge had been solved: its later answers are answers to the replay. */
  predicate Solved(labels: seq<Label>, k: nat, f: FlightId)
    requires k <= |labels|
  {
    Solve(f, true) in labels[..k]
  }

  /** Label k is a 200 reply to flight f, and no challenge page unless it answers the replay. */
  predicate GoodReply(c: Config, labels: seq<Label>, k: nat, f: FlightId, r: Response)
    requires k < |labels|
  {
    labels[k] == Answer(f, Reply(200, r)) && (c.challenge(200, r) ==> Solved(labels, k, f))
  }

  /** The answers to f in a row that brought no reply, counted anew for the replay. */
  function Failures(labels: seq<Label>, f: FlightId): nat
  {
    if labels == [] then 0 else
    var before, l := Failures(labels[..|labels| - 1], f), labels[|labels| - 1];
    if l == Answer(f, NoReply) then before + 1 else if l.Solve? && l.flight == f then 0 else before
  }

  /** Flight f runs for url in state k. */
  predicate Runs(s: Sys, f: FlightId, url: string) { f in s.flights && s.flights[f].url == url }

  /** Flight f's check inside the group finds r unexpired. */
  ghost predicate FoundCached(s: Sys, l: Label, f: FlightId, url: string, r: Response)
  {
    l == InnerCheck(f) && url in s.entries && s.clock < s.entries[url].expires && s.entries[url].resp == r
  }

  /** Before state i, flight f got r for url from the origin. */
  ghost predicate GotReply(c: Config, states: seq<Sys>, labels: seq<Label>, i: nat, f: FlightId, url: string,
                           r: Response)
    requires i <= |labels| < |states|
  {
    exists k :: 0 <= k < i && Runs(states[k], f, url) && GoodReply(c, labels, k, f, r)
  }

  /** Before state i, flight f got r for url, from the origin or from the cache. */
  ghost predicate HasSource(c: Config, states: seq<Sys>, labels: seq<Label>, i: nat, f: FlightId, url: string,
                            r: Response)
    requires i <= |labels| < |states|
  {
    || GotReply(c, states, labels, i, f, url, r)
    || exists k :: 0 <= k < i && Runs(states[k], f, url) && FoundCached(states[k], labels[k], f, url, r)
  }

  // ---------- one step of one flight ----------

  /** What a flight's own label makes of its phase. */
  ghost predicate Changes(c: Config, s: Sys, l: Label, before: Flight, after: Phase)
    requires OfFlight(l)
  {
    match l
    case InnerCheck(f) =>
      before.phase == Started &&
      (after == Cleared || (after.Finished? && after.result.Ok? && FoundCached(s, l, f, before.url, after.result.resp)))
    case Request(_) => before.phase == Cleared && after == Fetching(0)
    case Answer(_, NoReply) =>
      if before.phase.Fetching? then
        if before.phase.attempt < c.maxRetries then after == Fetching(before.phase.attempt + 1)
        else after == if before.solver then Solving else Finished(Err)
      else
        before.phase.Replaying? &&
        after == if before.phase.attempt < c.maxRetries then Replaying(before.phase.attempt + 1) else Finished(Err)
    case Answer(_, Reply(status, r)) =>
      if before.phase.Fetching? && c.challenge(status, r) then after == if before.solver then Solving else Finished(Err)
      else
        (before.phase.Fetching? || before.phase.Replaying?) &&
        after == if status == 200 then Storing(r) else Finished(Err)
    case Solve(_, solved) => before.phase == Solving && after == if solved then Replaying(0) else Finished(Err)
    case Store(_) => before.phase.Storing? && after == Finished(Ok(before.phase.resp))
  }

  lemma MoveChanges(c: Config, s: Sys, l: Label, m: Move)
    requires OfFlight(l) && Moves(c, s, l, m)
    ensures Changes(c, s, l, s.flights[l.flight], m.phase)
  {
    hide SetLeads, CrowdedOut, AfterGet;
  }

  /** A running flight is as it was, has just been launched, or has moved by its own label. */
  lemma FlightStep(c: Config, s: Sys, l: Label, s': Sys, f: FlightId)
    requires OneFlightPerUrl(s) && Step(c, s, l, s') && f in s'.flights
    ensures
      if OfFlight(l) && l.flight == f then
        && f in s.flights && s'.flights[f].url == s.flights[f].url && s'.flights[f].solver == s.flights[f].solver
        && Changes(c, s, l, s.flights[f], s'.flights[f].phase)
      else
        || (f in s.flights && s'.flights[f] == s.flights[f])
        || (f == s.nextId && f !in s.flights && s'.flights[f].phase == Started)
  {
    if OfFlight(l) {
      var m :| Moves(c, s, l, m) && s' == Moved(s, l.flight, m);
      MoveChanges(c, s, l, m);
      hide Moves, Changes;
    } else {
      OtherFlights(c, s, l, s', f);
    }
    hide Step, OneFlightPerUrl, Changes;
  }

  lemma OtherFlights(c: Config, s: Sys, l: Label, s': Sys, f: FlightId)
    requires OneFlightPerUrl(s) && Step(c, s, l, s') && f in s'.flights && !OfFlight(l)
    ensures (f in s.flights && s'.flights[f] == s.flights[f])
         || (f == s.nextId && f !in s.flights && s'.flights[f].phase == Started)
  {
    hide Lookup, AfterGet;
  }

  /** Numbers given out only grow, and a flight's own labels bear numbers given out before. */
  lemma NumbersGrow(c: Config, s: Sys, l: Label, s': Sys)
    requires OneFlightPerUrl(s) && Step(c, s, l, s')
    ensures s.nextId <= s'.nextId && (OfFlight(l) ==> l.flight in s.flights && l.flight < s.nextId)
  {
    if OfFlight(l) {
      var m :| Moves(c, s, l, m) && s' == Moved(s, l.flight, m);
      hide StoreMove, AnswerMove, InnerCheckMove;
    }
    hide AfterGet, Lookup;
  }

  // ---------- what every flight remembers ----------

  /** The labels before state i account for flight f's phase. */
  ghost predicate Remembers(c: Config, states: seq<Sys>, labels: seq<Label>, i: nat, f: FlightId)
    requires i <= |labels| < |states| && f in states[i].flights
  {
    var flight, before := states[i].flights[f], labels[..i];
    match flight.phase
    case Started => Unasked(before, f)
    case Cleared => Unasked(before, f)
    case Fetching(n) => n <= c.maxRetries && Failures(before, f) == n && Unsolved(before, f)
    case Solving => Unsolved(before, f)
    case Replaying(n) => n <= c.maxRetries && Failures(before, f) == n && Solve(f, true) in before
    case Storing(r) => GotReply(c, states, labels, i, f, flight.url, r)
    case Finished(result) => result.Ok? ==> HasSource(c, states, labels, i, f, flight.url, result.resp)
  }

  ghost predicate Remembered(c: Config, states: seq<Sys>, labels: seq<Label>, i: nat, f: FlightId)
    requires i <= |labels| < |states|
  {
    f in states[i].flights ==> Remembers(c, states, labels, i, f)
  }

  predicate Unsolved(labels: seq<Label>, f: FlightId) { Solve(f, true) !in labels && Solve(f, false) !in labels }

  predicate Unasked(labels: seq<Label>, f: FlightId) { Failures(labels, f) == 0 && Unsolved(labels, f) }

  ghost predicate AllRemember(c: Config, states: seq<Sys>, labels: seq<Label>, i: nat)
    requires i <= |labels| < |states|
  {
    Numbered(states, labels, i) && forall f :: Remembered(c, states, labels, i, f)
  }

  lemma GotReplyStays(c: Config, states: seq<Sys>, labels: seq<Label>, i: nat, f: FlightId, url: string, r: Response)
    requires i < |labels| < |states|
    ensures GotReply(c, states, labels, i, f, url, r) ==> GotReply(c, states, labels, i + 1, f, url, r)
    ensures HasSource(c, states, labels, i, f, url, r) ==> HasSource(c, states, labels, i + 1, f, url, r)
  {
    hide GoodReply, FoundCached;
  }

  lemma FailuresSnoc(labels: seq<Label>, i: nat, f: FlightId)
    requires i < |labels|
    ensures labels[..i + 1] == labels[..i] + [labels[i]]
    ensures Failures(labels[..i + 1], f) ==
            if labels[i] == Answer(f, NoReply) then Failures(labels[..i], f) + 1
            else if labels[i].Solve? && labels[i].flight == f then 0 else Failures(labels[..i], f)
  {
    assert labels[..i + 1][..i] == labels[..i];
  }

  lemma {:induction false} NoLabelsYet(labels: seq<Label>, f: FlightId)
    requires forall j :: 0 <= j < |labels| && OfFlight(labels[j]) ==> labels[j].flight < f
    ensures Unasked(labels, f)
  {
    if labels != [] {
      NoLabelsYet(labels[..|labels| - 1], f);
      assert labels == labels[..|labels| - 1] + [labels[|labels| - 1]];
    }
  }

  /** A label that is not the flight's own leaves all it remembers in place. */
  lemma OthersForgetNothing(c: Config, states: seq<Sys>, labels: seq<Label>, i: nat, f: FlightId)
    requires i < |labels| < |states| && f in states[i].flights && Remembers(c, states, labels, i, f)
    requires f in states[i + 1].flights && states[i + 1].flights[f] == states[i].flights[f]
    requires !(OfFlight(labels[i]) && labels[i].flight == f)
    ensures Remembers(c, states, labels, i + 1, f)
  {
    FailuresSnoc(labels, i, f);
    var flight := states[i].flights[f];
    if flight.phase.Storing? {
      GotReplyStays(c, states, labels, i, f, flight.url, flight.phase.resp);
    } else if flight.phase.Finished? && flight.phase.result.Ok? {
      GotReplyStays(c, states, labels, i, f, flight.url, flight.phase.result.resp);
    }
    hide GotReply, HasSource, Failures;
  }

  lemma OwnStepRemembered(c: Config, states: seq<Sys>, labels: seq<Label>, i: nat, f: FlightId)
    requires i < |labels| < |states| && f in states[i].flights && Remembers(c, states, labels, i, f)
    requires f in states[i + 1].flights && states[i + 1].flights[f].url == states[i].flights[f].url
    requires OfFlight(labels[i]) && labels[i].flight == f
    requires Changes(c, states[i], labels[i], states[i].flights[f], states[i + 1].flights[f].phase)
    ensures Remembers(c, states, labels, i + 1, f)
  {
    FailuresSnoc(labels, i, f);
    var before, after, l := states[i].flights[f], states[i + 1].flights[f], labels[i];
    hide Failures;
    if after.phase.Storing? {
      assert GoodReply(c, labels, i, f, after.phase.resp);
      assert Runs(states[i], f, after.url);
      hide GoodReply, HasSource;
    } else if after.phase.Finished? && after.phase.result.Ok? {
      GotReplyStays(c, states, labels, i, f, before.url, after.phase.result.resp);
      hide GotReply, GoodReply;
      if l.InnerCheck? { assert Runs(states[i], f, before.url); }
    } else {
      hide GotReply, HasSource, GoodReply, FoundCached;
    }
  }

  lemma LaunchedRemembers(c: Config, states: seq<Sys>, labels: seq<Label>, i: nat, f: FlightId)
    requires 0 < i <= |labels| < |states| && f in states[i].flights && states[i].flights[f].phase == Started
    requires forall j :: 0 <= j < i && OfFlight(labels[j]) ==> labels[j].flight < f
    ensures Remembers(c, states, labels, i, f)
  {
    NoLabelsYet(labels[..i], f);
    hide Unasked;
  }

  /** The labels of flights' own steps bear numbers given out by state i. */
  ghost predicate Numbered(states: seq<Sys>, labels: seq<Label>, i: nat)
    requires i <= |labels| < |states|
  {
    forall j :: 0 <= j < i && OfFlight(labels[j]) ==> labels[j].flight < states[i].nextId
  }

  lemma FlightRemembered(c: Config, states: seq<Sys>, labels: seq<Label>, i: nat, f: FlightId)
    requires i < |labels| < |states| && f in states[i + 1].flights
    requires Remembered(c, states, labels, i, f) && Numbered(states, labels, i)
    requires OneFlightPerUrl(states[i]) && Step(c, states[i], labels[i], states[i + 1])
    ensures Remembered(c, states, labels, i + 1, f)
  {
    hide Step, Remembers, Changes, OneFlightPerUrl;
    var s, l, s' := states[i], labels[i], states[i + 1];
    FlightStep(c, s, l, s', f);
    if f in s.flights {
      if OfFlight(l) && l.flight == f {
        OwnStepRemembered(c, states, labels, i, f);
      } else {
        OthersForgetNothing(c, states, labels, i, f);
      }
    } else {
      NumbersGrow(c, s, l, s');
      LaunchedRemembers(c, states, labels, i + 1, f);
    }
  }

  lemma StepRemembered(c: Config, states: seq<Sys>, labels: seq<Label>, i: nat)
    requires i < |labels| < |states| && OneFlightPerUrl(states[i]) && AllRemember(c, states, labels, i)
    requires Step(c, states[i], labels[i], states[i + 1])
    ensures AllRemember(c, states, labels, i + 1)
  {
    hide Step, Remembers, OneFlightPerUrl, OfFlight;
    NumbersGrow(c, states[i], labels[i], states[i + 1]);
    var n := i + 1;
    forall f
      ensures Remembered(c, states, labels, n, f)
    {
      if f in states[n].flights { FlightRemembered(c, states, labels, i, f); }
    }
  }

  lemma StepOf(c: Config, states: seq<Sys>, labels: seq<Label>, i: nat)
    requires Run(c, states, labels) && i < |labels|
    ensures |states| == |labels| + 1 && Step(c, states[i], labels[i], states[i + 1])
    ensures OneFlightPerUrl(states[i]) && SharedResult(states[i]) && c.ttl > 0 && c.cap > 0
  {
    RunKeepsInv(c, states, labels, i);
    hide Step;
  }

  lemma {:induction false} RunRemembers(c: Config, states: seq<Sys>, labels: seq<Label>, i: nat)
    requires Run(c, states, labels) && i <= |labels|
    ensures |states| == |labels| + 1 && AllRemember(c, states, labels, i)
  {
    if i > 0 {
      RunRemembers(c, states, labels, i - 1);
      StepOf(c, states, labels, i - 1);
      StepRemembered(c, states, labels, i - 1);
      hide *;
    }
  }

  lemma FlightRemembers(c: Config, states: seq<Sys>, labels: seq<Label>, i: nat, f: FlightId)
    requires Run(c, states, labels) && i <= |labels| && f in states[i].flights
    ensures |states| == |labels| + 1 && Remembers(c, states, labels, i, f)
  {
    RunRemembers(c, states, labels, i);
    assert Remembered(c, states, labels, i, f);
    hide Run, Remembers;
  }

  lemma RunShape(c: Config, states: seq<Sys>, labels: seq<Label>)
    requires Run(c, states, labels)
    ensures |states| == |labels| + 1
    ensures states[0].callers == map[] && states[0].delivered == map[] && states[0].entries == map[]
  {
    hide Step;
  }

  // ---------- where results come from ----------

  /** Up to state i, flight f has run for url. */
  ghost predicate Flew(states: seq<Sys>, i: nat, f: FlightId, url: string)
    requires i < |states|
  {
    exists k :: 0 <= k <= i && Runs(states[k], f, url)
  }

  /** Whatever f delivered came from the origin or from the cache. */
  ghost predicate Accountable(c: Config, states: seq<Sys>, labels: seq<Label>, i: nat, f: FlightId, result: Result)
    requires i <= |labels| < |states|
  {
    result.Ok? ==> exists url :: HasSource(c, states, labels, i, f, url, result.resp)
  }

  lemma DeliveredStep(c: Config, s: Sys, l: Label, s': Sys, f: FlightId)
    requires Step(c, s, l, s') && f in s'.delivered
    ensures (f in s.delivered && s'.delivered[f] == s.delivered[f])
         || (f in s.flights && s.flights[f].phase.Finished? && s.flights[f].phase.result == s'.delivered[f])
  {
    hide AfterGet, Lookup, SetLeads;
  }

  lemma DeliveryAccounted(c: Config, states: seq<Sys>, labels: seq<Label>, i: nat, f: FlightId)
    requires i < |labels| < |states| && Step(c, states[i], labels[i], states[i + 1]) && f in states[i + 1].delivered
    requires f in states[i].flights ==> Remembers(c, states, labels, i, f)
    requires f in states[i].delivered ==> Accountable(c, states, labels, i, f, states[i].delivered[f])
    ensures Accountable(c, states, labels, i + 1, f, states[i + 1].delivered[f])
  {
    hide Step, HasSource;
    DeliveredStep(c, states[i], labels[i], states[i + 1], f);
    var result := states[i + 1].delivered[f];
    if result.Ok? {
      var url :| HasSource(c, states, labels, i, f, url, result.resp);
      GotReplyStays(c, states, labels, i, f, url, result.resp);
    }
  }

  lemma {:induction false} RunAccountable(c: Config, states: seq<Sys>, labels: seq<Label>, i: nat, f: FlightId)
    requires Run(c, states, labels) && i <= |labels| && f in states[i].delivered
    ensures |states| == |labels| + 1 && Accountable(c, states, labels, i, f, states[i].delivered[f])
  {
    hide *;
    RunShape(c, states, labels);
    if i > 0 {
      if f in states[i - 1].delivered { RunAccountable(c, states, labels, i - 1, f); }
      if f in states[i - 1].flights { FlightRemembers(c, states, labels, i - 1, f); }
      StepOf(c, states, labels, i - 1);
      DeliveryAccounted(c, states, labels, i - 1, f);
    }
  }

  /**
    Every result a flight delivers is a response that the origin gave that very flight with status 200, no
    challenge page unless it answers the replay, or one that the flight found unexpired in the cache.
   */
  lemma ResultHasASource(c: Config, states: seq<Sys>, labels: seq<Label>, i: nat, f: FlightId, r: Response)
    requires Run(c, states, labels) && i <= |labels|
    requires f in states[i].delivered && states[i].delivered[f] == Ok(r)
    ensures |states| == |labels| + 1 && exists url :: HasSource(c, states, labels, i, f, url, r)
  {
    RunAccountable(c, states, labels, i, f);
    hide Run, HasSource;
  }

  // ---------- where cache entries come from ----------

  /** Some flight got r for url from the origin before state i. */
  ghost predicate FromOrigin(c: Config, states: seq<Sys>, labels: seq<Label>, i: nat, url: string, r: Response)
    requires i <= |labels| < |states|
  {
    exists f :: GotReply(c, states, labels, i, f, url, r)
  }

  /** An entry of the next state was there before, or has just been stored by a flight for its URL. */
  lemma EntryStep(c: Config, s: Sys, l: Label, s': Sys, url: string)
    requires c.cap > 0 && Step(c, s, l, s') && url in s'.entries
    ensures (url in s.entries && s'.entries[url] == s.entries[url])
         || (l.Store? && Runs(s, l.flight, url) && s.flights[l.flight].phase == Storing(s'.entries[url].resp)
             && s'.entries[url].resp.body != "" && s'.entries[url].expires == s.clock + c.ttl)
  {
    if OfFlight(l) {
      var m :| Moves(c, s, l, m) && s' == Moved(s, l.flight, m);
      MoveEntry(c, s, l, m, url);
      hide Moves, Step;
    }
    hide SetLeads;
  }

  lemma MoveEntry(c: Config, s: Sys, l: Label, m: Move, url: string)
    requires c.cap > 0 && OfFlight(l) && Moves(c, s, l, m) && url in m.entries
    ensures (url in s.entries && m.entries[url] == s.entries[url])
         || (l.Store? && Runs(s, l.flight, url) && s.flights[l.flight].phase == Storing(m.entries[url].resp)
             && m.entries[url].resp.body != "" && m.entries[url].expires == s.clock + c.ttl)
  {
    if l.Store? && s.flights[l.flight].phase.resp.body != "" {
      var flight := s.flights[l.flight];
      SetOnlyAdds(c, s.entries, flight.url, flight.phase.resp, s.clock, m.entries);
    }
    hide SetLeads, CrowdedOut;
  }

  lemma StoredEntryIsAReply(c: Config, states: seq<Sys>, labels: seq<Label>, i: nat, url: string)
    requires i < |labels| < |states| && labels[i].Store? && url in states[i + 1].entries
    requires var f, r := labels[i].flight, states[i + 1].entries[url].resp;
             Runs(states[i], f, url) && states[i].flights[f].phase == Storing(r) && Remembers(c, states, labels, i, f)
    ensures FromOrigin(c, states, labels, i + 1, url, states[i + 1].entries[url].resp)
  {
    GotReplyStays(c, states, labels, i, labels[i].flight, url, states[i + 1].entries[url].resp);
    hide GotReply;
  }

  /** Every cache entry holds a non-empty body that the origin gave with status 200 for its URL. */
  lemma {:induction false} EntryIsAReply(c: Config, states: seq<Sys>, labels: seq<Label>, i: nat, url: string)
    requires Run(c, states, labels) && i <= |labels| && url in states[i].entries
    ensures |states| == |labels| + 1 && states[i].entries[url].resp.body != ""
    ensures FromOrigin(c, states, labels, i, url, states[i].entries[url].resp)
  {
    hide *;
    RunShape(c, states, labels);
    if i > 0 {
      StepOf(c, states, labels, i - 1);
      EntryStep(c, states[i - 1], labels[i - 1], states[i], url);
      if url in states[i - 1].entries && states[i].entries[url] == states[i - 1].entries[url] {
        EntryIsAReply(c, states, labels, i - 1, url);
        OriginStays(c, states, labels, i - 1, i, url, states[i].entries[url].resp);
      } else {
        RunsIsIn(states[i - 1], labels[i - 1].flight, url);
        FlightRemembers(c, states, labels, i - 1, labels[i - 1].flight);
        StoredEntryIsAReply(c, states, labels, i - 1, url);
      }
    }
  }

  lemma RunsIsIn(s: Sys, f: FlightId, url: string)
    requires Runs(s, f, url)
    ensures f in s.flights && s.flights[f].url == url
  {
  }

  // ---------- what callers are told ----------

  /** What one step makes of a caller. */
  lemma CallerStep(c: Config, s: Sys, l: Label, s': Sys, a: Caller)
    requires OneFlightPerUrl(s) && Step(c, s, l, s') && a in s'.callers
    ensures match s'.callers[a]
            case Missed(url) => (a in s.callers && s.callers[a] == Missed(url)) || l == Begin(a, url)
            case Waiting(f) =>
              || (a in s.callers && s.callers[a] == Waiting(f))
              || (a in s.callers && s.callers[a].Missed? && Runs(s', f, s.callers[a].url))
            case Served(result, None) =>
              || (a in s.callers && s.callers[a] == Served(result, None))
              || (l.Begin? && l.caller == a && LiveAt(s.entries, l.url, s.clock)
                  && result == Ok(s.entries[l.url].resp))
            case Served(result, Some(f)) =>
              || (a in s.callers && s.callers[a] == Served(result, Some(f)))
              || (a in s.callers && s.callers[a] == Waiting(f) && a in s.channel && s.channel[a] == result)
            case Cancelled => true
  {
    if OfFlight(l) {
      var m :| Moves(c, s, l, m) && s' == Moved(s, l.flight, m);
      hide Moves;
    } else if l.Join? {
      hide LiveAt;
    } else {
      hide OneFlightPerUrl, AfterGet;
    }
  }

  /** The labels before state i account for what caller a was told. */
  ghost predicate CallerKnown(states: seq<Sys>, labels: seq<Label>, i: nat, a: Caller)
    requires i <= |labels| < |states| && a in states[i].callers
  {
    match states[i].callers[a]
    case Missed(url) => Begin(a, url) in labels[..i]
    case Waiting(f) => AskedFor(states, labels, i, a, f)
    case Served(result, None) => ServedLive(states, labels, i, a, result)
    case Served(result, Some(f)) => AskedFor(states, labels, i, a, f)
    case Cancelled => true
  }

  /** Caller a asked for the URL that flight f ran for. */
  ghost predicate AskedFor(states: seq<Sys>, labels: seq<Label>, i: nat, a: Caller, f: FlightId)
    requires i <= |labels| < |states|
  {
    exists url :: Begin(a, url) in labels[..i] && Flew(states, i, f, url)
  }

  /** Caller a found the response unexpired when it asked. */
  ghost predicate ServedLive(states: seq<Sys>, labels: seq<Label>, i: nat, a: Caller, result: Result)
    requires i <= |labels| < |states|
  {
    exists k :: 0 <= k < i && BeganLive(states[k], labels[k], a, result)
  }

  ghost predicate BeganLive(s: Sys, l: Label, a: Caller, result: Result)
  {
    && l.Begin? && l.caller == a && l.url in s.entries && s.clock < s.entries[l.url].expires
    && result == Ok(s.entries[l.url].resp)
  }

  lemma AskedForStays(states: seq<Sys>, labels: seq<Label>, i: nat, a: Caller, f: FlightId)
    requires i < |labels| < |states| && AskedFor(states, labels, i, a, f)
    ensures AskedFor(states, labels, i + 1, a, f)
  {
    var url :| Begin(a, url) in labels[..i] && Flew(states, i, f, url);
    assert labels[..i + 1] == labels[..i] + [labels[i]];
    hide Runs;
    assert Flew(states, i + 1, f, url);
  }

  lemma CallerStaysKnown(c: Config, states: seq<Sys>, labels: seq<Label>, i: nat, a: Caller)
    requires i < |labels| < |states| && OneFlightPerUrl(states[i]) && Step(c, states[i], labels[i], states[i + 1])
    requires a in states[i + 1].callers && (a in states[i].callers ==> CallerKnown(states, labels, i, a))
    ensures CallerKnown(states, labels, i + 1, a)
  {
    CallerStep(c, states[i], labels[i], states[i + 1], a);
    hide Step, OneFlightPerUrl;
    assert labels[..i + 1] == labels[..i] + [labels[i]];
    match states[i + 1].callers[a] {
      case Missed(url) =>
      case Waiting(f) =>
        if states[i].callers[a] == Waiting(f) {
          AskedForStays(states, labels, i, a, f);
        } else {
          var url := states[i].callers[a].url;
          assert Flew(states, i + 1, f, url) && Begin(a, url) in labels[..i + 1];
        }
        hide Flew, Runs;
      case Served(result, None) =>
        if a !in states[i].callers || states[i].callers[a] != Served(result, None) {
          assert BeganLive(states[i], labels[i], a, result);
        }
        hide BeganLive;
      case Served(result, Some(f)) =>
        AskedForStays(states, labels, i, a, f);
        hide AskedFor;
      case Cancelled =>
    }
  }

  lemma {:induction false} RunKnowsCallers(c: Config, states: seq<Sys>, labels: seq<Label>, i: nat, a: Caller)
    requires Run(c, states, labels) && i <= |labels| && a in states[i].callers
    ensures |states| == |labels| + 1 && CallerKnown(states, labels, i, a)
  {
    hide *;
    RunShape(c, states, labels);
    if i > 0 {
      StepOf(c, states, labels, i - 1);
      if a in states[i - 1].callers { RunKnowsCallers(c, states, labels, i - 1, a); }
      CallerStaysKnown(c, states, labels, i - 1, a);
    }
  }

  lemma UrlStep(c: Config, s: Sys, l: Label, s': Sys, f: FlightId, url: string)
    requires OneFlightPerUrl(s) && Step(c, s, l, s') && f < s.nextId && (f in s.flights ==> Runs(s, f, url))
    ensures f < s'.nextId && (f in s'.flights ==> Runs(s', f, url))
  {
    NumbersGrow(c, s, l, s');
    if f in s'.flights { FlightStep(c, s, l, s', f); }
    hide Step, Changes, OneFlightPerUrl;
  }

  lemma RunningIsNumbered(c: Config, states: seq<Sys>, labels: seq<Label>, j: nat, f: FlightId, url: string)
    requires Run(c, states, labels) && j <= |labels| && |states| == |labels| + 1 && Runs(states[j], f, url)
    ensures f < states[j].nextId
  {
    RunKeepsInv(c, states, labels, j);
    hide Run, NoNeedlessFetch, SharedResult, LogMatchesCache, RequestsJustified;
  }

  /** A flight runs for one URL as long as it runs, and never again. */
  lemma {:induction false} OneUrlPerFlight(c: Config, states: seq<Sys>, labels: seq<Label>, j: nat, k: nat, f: FlightId,
                                           url: string)
    requires Run(c, states, labels) && j <= k <= |labels| && |states| == |labels| + 1 && Runs(states[j], f, url)
    ensures f < states[k].nextId && (f in states[k].flights ==> Runs(states[k], f, url))
    decreases k
  {
    hide *;
    RunningIsNumbered(c, states, labels, j, f, url);
    if j < k {
      OneUrlPerFlight(c, states, labels, j, k - 1, f, url);
      StepOf(c, states, labels, k - 1);
      UrlStep(c, states[k - 1], labels[k - 1], states[k], f, url);
    }
  }

  lemma SameUrl(c: Config, states: seq<Sys>, labels: seq<Label>, j: nat, k: nat, f: FlightId, u: string, v: string)
    requires Run(c, states, labels) && j <= |labels| && k <= |labels| && |states| == |labels| + 1
    requires Runs(states[j], f, u) && Runs(states[k], f, v)
    ensures u == v
  {
    if j <= k {
      OneUrlPerFlight(c, states, labels, j, k, f, u);
    } else {
      OneUrlPerFlight(c, states, labels, k, j, f, v);
    }
    hide Run;
  }

  lemma OriginStays(c: Config, states: seq<Sys>, labels: seq<Label>, k: nat, i: nat, url: string, r: Response)
    requires k <= i <= |labels| < |states| && FromOrigin(c, states, labels, k, url, r)
    ensures FromOrigin(c, states, labels, i, url, r)
  {
    var f :| GotReply(c, states, labels, k, f, url, r);
    var j :| 0 <= j < k && Runs(states[j], f, url) && GoodReply(c, labels, j, f, r);
    assert GotReply(c, states, labels, i, f, url, r);
    hide GoodReply;
  }

  /** A response from the cache came from the origin before that. */
  lemma SourceIsOrigin(c: Config, states: seq<Sys>, labels: seq<Label>, i: nat, f: FlightId, url: string, r: Response)
    requires Run(c, states, labels) && i <= |labels| < |states| && HasSource(c, states, labels, i, f, url, r)
    ensures FromOrigin(c, states, labels, i, url, r)
  {
    if !GotReply(c, states, labels, i, f, url, r) {
      var k :| 0 <= k < i && Runs(states[k], f, url) && FoundCached(states[k], labels[k], f, url, r);
      EntryIsAReply(c, states, labels, k, url);
      OriginStays(c, states, labels, k, i, url, r);
      hide FromOrigin, Run;
    } else {
      hide GotReply, Run;
    }
  }

  /**
    Whatever body a caller is given, the origin gave it before, for the URL that this caller asked for,
    with status 200 and not as a challenge page (unless in answer to the replay).
   */
  lemma ServedIsAReply(c: Config, states: seq<Sys>, labels: seq<Label>, i: nat, a: Caller, r: Response)
    requires Run(c, states, labels) && i <= |labels|
    requires a in states[i].callers && states[i].callers[a].Served? && states[i].callers[a].result == Ok(r)
    ensures |states| == |labels| + 1
    ensures exists url :: Begin(a, url) in labels[..i] && FromOrigin(c, states, labels, i, url, r)
  {
    RunKnowsCallers(c, states, labels, i, a);
    if states[i].callers[a].via.None? {
      LiveIsOrigin(c, states, labels, i, a, r);
    } else {
      FlightIsOrigin(c, states, labels, i, a, states[i].callers[a].via.value, r);
    }
    hide Run, FromOrigin, AskedFor, ServedLive;
  }

  lemma LiveIsOrigin(c: Config, states: seq<Sys>, labels: seq<Label>, i: nat, a: Caller, r: Response)
    requires Run(c, states, labels) && i <= |labels| < |states| && ServedLive(states, labels, i, a, Ok(r))
    ensures exists url :: Begin(a, url) in labels[..i] && FromOrigin(c, states, labels, i, url, r)
  {
    var k :| 0 <= k < i && BeganLive(states[k], labels[k], a, Ok(r));
    EntryIsAReply(c, states, labels, k, labels[k].url);
    OriginStays(c, states, labels, k, i, labels[k].url, r);
    assert labels[..i][k] == Begin(a, labels[k].url);
    hide Run, FromOrigin;
  }

  lemma FlightIsOrigin(c: Config, states: seq<Sys>, labels: seq<Label>, i: nat, a: Caller, f: FlightId, r: Response)
    requires Run(c, states, labels) && i <= |labels| && |states| == |labels| + 1
    requires a in states[i].callers && states[i].callers[a] == Served(Ok(r), Some(f))
    requires AskedFor(states, labels, i, a, f)
    ensures exists url :: Begin(a, url) in labels[..i] && FromOrigin(c, states, labels, i, url, r)
  {
    RunKeepsInv(c, states, labels, i);
    assert Accounted(states[i], a);
    ResultHasASource(c, states, labels, i, f, r);
    hide Run, Inv;
    var u :| HasSource(c, states, labels, i, f, u, r);
    SourceIsOrigin(c, states, labels, i, f, u, r);
    var j := SourceRuns(c, states, labels, i, f, u, r);
    var url :| Begin(a, url) in labels[..i] && Flew(states, i, f, url);
    var k :| 0 <= k <= i && Runs(states[k], f, url);
    SameUrl(c, states, labels, j, k, f, u, url);
    hide FromOrigin, HasSource;
  }

  lemma SourceRuns(c: Config, states: seq<Sys>, labels: seq<Label>, i: nat, f: FlightId, url: string, r: Response)
    returns (k: nat)
    requires i <= |labels| < |states| && HasSource(c, states, labels, i, f, url, r)
    ensures k < i && Runs(states[k], f, url)
  {
    hide GoodReply, FoundCached, Runs;
    if GotReply(c, states, labels, i, f, url, r) {
      k :| 0 <= k < i && Runs(states[k], f, url) && GoodReply(c, labels, k, f, r);
    } else {
      k :| 0 <= k < i && Runs(states[k], f, url) && FoundCached(states[k], labels[k], f, url, r);
    }
  }

  /** A caller served without a flight got what was unexpired in the cache for its URL when it asked. */
  lemma CachedAnswerIsLive(c: Config, states: seq<Sys>, labels: seq<Label>, i: nat, a: Caller, result: Result)
    requires Run(c, states, labels) && i <= |labels|
    requires a in states[i].callers && states[i].callers[a] == Served(result, None)
    ensures |states| == |labels| + 1
    ensures exists k :: 0 <= k < i && BeganLive(states[k], labels[k], a, result)
  {
    RunKnowsCallers(c, states, labels, i, a);
    hide Run, BeganLive;
  }

  // ---------- what every reply comes to ----------

  /** Flight f is going to deliver result, or has done so. */
  ghost predicate Settled(s: Sys, f: FlightId, result: Result)
  {
    if f in s.flights then
      s.flights[f].phase == Finished(result) || (result.Ok? && s.flights[f].phase == Storing(result.resp))
    else f in s.delivered && s.delivered[f] == result
  }

  lemma SettledStep(c: Config, s: Sys, l: Label, s': Sys, f: FlightId, result: Result)
    requires OneFlightPerUrl(s) && SharedResult(s) && Step(c, s, l, s') && f < s.nextId && Settled(s, f, result)
    ensures Settled(s', f, result)
  {
    hide OneFlightPerUrl, SharedResult;
    if f in s'.flights {
      FlightStep(c, s, l, s', f);
      hide Step, FoundCached;
    } else if f in s.flights {
      FlightEnds(c, s, l, s', f);
      hide Step;
    } else {
      DeliveredStays(c, s, l, s', f);
      hide Step;
    }
  }

  /** A flight ends by delivering its result. */
  lemma FlightEnds(c: Config, s: Sys, l: Label, s': Sys, f: FlightId)
    requires Step(c, s, l, s') && f in s.flights && f !in s'.flights
    ensures l == Deliver(f) && s.flights[f].phase.Finished?
    ensures f in s'.delivered && s'.delivered[f] == s.flights[f].phase.result
  {
    hide AfterGet, Lookup, SetLeads;
  }

  lemma DeliveredStays(c: Config, s: Sys, l: Label, s': Sys, f: FlightId)
    requires Step(c, s, l, s') && f !in s.flights && f in s.delivered
    ensures f in s'.delivered && s'.delivered[f] == s.delivered[f]
  {
    hide AfterGet, Lookup, SetLeads;
  }

  lemma {:induction false} SettledStays(c: Config, states: seq<Sys>, labels: seq<Label>, k: nat, i: nat, f: FlightId,
                                        url: string, result: Result)
    requires Run(c, states, labels) && k < i <= |labels| && |states| == |labels| + 1
    requires Runs(states[k], f, url) && Settled(states[k + 1], f, result)
    ensures Settled(states[i], f, result)
    decreases i
  {
    hide *;
    if k + 1 < i {
      SettledStays(c, states, labels, k, i - 1, f, url, result);
      StepOf(c, states, labels, i - 1);
      OneUrlPerFlight(c, states, labels, k, i - 1, f, url);
      SettledStep(c, states[i - 1], labels[i - 1], states[i], f, result);
    }
  }

  lemma OwnLabel(c: Config, states: seq<Sys>, labels: seq<Label>, k: nat)
    requires Run(c, states, labels) && k < |labels| && OfFlight(labels[k])
    ensures |states| == |labels| + 1
    ensures var f, s, s' := labels[k].flight, states[k], states[k + 1];
            && f in s.flights && f in s'.flights && Runs(s, f, s.flights[f].url)
            && Changes(c, s, labels[k], s.flights[f], s'.flights[f].phase)
            && Remembers(c, states, labels, k, f)
  {
    StepOf(c, states, labels, k);
    NumbersGrow(c, states[k], labels[k], states[k + 1]);
    FlightRemembers(c, states, labels, k, labels[k].flight);
    StillRunning(c, states[k], labels[k], states[k + 1]);
    FlightStep(c, states[k], labels[k], states[k + 1], labels[k].flight);
    hide Run, Step, Changes, Remembers, OneFlightPerUrl, SharedResult;
  }

  lemma StillRunning(c: Config, s: Sys, l: Label, s': Sys)
    requires OfFlight(l) && Step(c, s, l, s')
    ensures l.flight in s'.flights
  {
    hide StoreMove, AnswerMove, InnerCheckMove;
  }

  /** Once a label of f has settled it, f delivers that result and no other. */
  lemma SettledIsDelivered(c: Config, states: seq<Sys>, labels: seq<Label>, k: nat, i: nat, f: FlightId, result: Result)
    requires Run(c, states, labels) && k < i <= |labels| && |states| == |labels| + 1
    requires f in states[k].flights && Settled(states[k + 1], f, result) && f in states[i].delivered
    ensures states[i].delivered[f] == result
  {
    assert Runs(states[k], f, states[k].flights[f].url);
    SettledStays(c, states, labels, k, i, f, states[k].flights[f].url, result);
    RunKeepsInv(c, states, labels, i);
    hide Run, OneFlightPerUrl, NoNeedlessFetch, LogMatchesCache, RequestsJustified;
  }

  /**
    A reply that is no challenge page, or that answers the replay, decides the flight: a 200 reply is its
    result, any other status is an error.
   */
  lemma ReplyDecides(c: Config, states: seq<Sys>, labels: seq<Label>, k: nat, i: nat, f: FlightId, status: int,
                     r: Response)
    requires Run(c, states, labels) && k < i <= |labels| && labels[k] == Answer(f, Reply(status, r))
    requires c.challenge(status, r) ==> Solved(labels, k, f)
    requires f in states[i].delivered
    ensures states[i].delivered[f] == if status == 200 then Ok(r) else Err
  {
    OwnLabel(c, states, labels, k);
    SettledIsDelivered(c, states, labels, k, i, f, if status == 200 then Ok(r) else Err);
    hide Run;
  }

  /** A challenge page in answer to the first request is an error, unless there is a solver to try. */
  lemma ChallengeDecides(c: Config, states: seq<Sys>, labels: seq<Label>, k: nat, i: nat, f: FlightId, status: int,
                         r: Response)
    requires Run(c, states, labels) && k < i <= |labels| && labels[k] == Answer(f, Reply(status, r))
    requires c.challenge(status, r) && !Solved(labels, k, f)
    ensures |states| == |labels| + 1 && f in states[k].flights
    ensures if states[k].flights[f].solver then f in states[k + 1].flights && states[k + 1].flights[f].phase == Solving
            else f in states[i].delivered ==> states[i].delivered[f] == Err
  {
    OwnLabel(c, states, labels, k);
    if !states[k].flights[f].solver && f in states[i].delivered {
      SettledIsDelivered(c, states, labels, k, i, f, Err);
    }
    hide Run;
  }

  /** A challenge that is not solved is an error. */
  lemma UnsolvedIsAnError(c: Config, states: seq<Sys>, labels: seq<Label>, k: nat, i: nat, f: FlightId)
    requires Run(c, states, labels) && k < i <= |labels| && labels[k] == Solve(f, false) && f in states[i].delivered
    ensures states[i].delivered[f] == Err
  {
    OwnLabel(c, states, labels, k);
    SettledIsDelivered(c, states, labels, k, i, f, Err);
    hide Run;
  }

  /** A flight's label starts an origin request: its first, a replay, or a retry. */
  predicate StartsRequest(c: Config, labels: seq<Label>, k: nat)
    requires k < |labels|
  {
    match labels[k]
    case Request(_) => true
    case Solve(_, solved) => solved
    case Answer(f, reply) => reply.NoReply? && Failures(labels[..k], f) < c.maxRetries
    case _ => false
  }

  predicate NoRequestsFrom(log: seq<Event>, n: nat) { forall j :: n <= j < |log| ==> !log[j].Requested? }

  /**
    Which steps start an origin request: the first request of a flight, the replay after a solved challenge,
    and every answer without a reply that is not yet the last retry in a row. Each starts one, for the
    flight's URL.
   */
  lemma RequestsAre(c: Config, states: seq<Sys>, labels: seq<Label>, k: nat)
    requires Run(c, states, labels) && k < |labels|
    ensures |states| == |labels| + 1 && states[k].log <= states[k + 1].log
    ensures StartsRequest(c, labels, k) ==>
              labels[k].flight in states[k].flights &&
              states[k + 1].log == states[k].log + [Requested(states[k].flights[labels[k].flight].url, states[k].clock)]
    ensures !StartsRequest(c, labels, k) ==> NoRequestsFrom(states[k + 1].log, |states[k].log|)
  {
    StepOf(c, states, labels, k);
    if OfFlight(labels[k]) {
      FlightRemembersOwn(c, states, labels, k);
      OwnRequests(c, states, labels, k);
      hide *;
    } else {
      OtherLogs(c, states[k], labels[k], states[k + 1]);
      hide Run, Step, OneFlightPerUrl, SharedResult;
    }
  }

  lemma OtherLogs(c: Config, s: Sys, l: Label, s': Sys)
    requires Step(c, s, l, s') && !OfFlight(l)
    ensures s.log <= s'.log && NoRequestsFrom(s'.log, |s.log|)
  {
    hide AfterGet, Lookup;
  }

  lemma FlightRemembersOwn(c: Config, states: seq<Sys>, labels: seq<Label>, k: nat)
    requires Run(c, states, labels) && k < |labels| && OfFlight(labels[k])
    ensures |states| == |labels| + 1 && labels[k].flight in states[k].flights
    ensures Remembers(c, states, labels, k, labels[k].flight)
  {
    OwnLabel(c, states, labels, k);
    hide Run, Remembers, Changes;
  }

  lemma OwnRequests(c: Config, states: seq<Sys>, labels: seq<Label>, k: nat)
    requires k < |labels| < |states| && OfFlight(labels[k]) && Step(c, states[k], labels[k], states[k + 1])
    requires labels[k].flight in states[k].flights && Remembers(c, states, labels, k, labels[k].flight)
    ensures states[k].log <= states[k + 1].log
    ensures StartsRequest(c, labels, k) ==>
              states[k + 1].log == states[k].log + [Requested(states[k].flights[labels[k].flight].url, states[k].clock)]
    ensures !StartsRequest(c, labels, k) ==> NoRequestsFrom(states[k + 1].log, |states[k].log|)
  {
    var s, l, s' := states[k], labels[k], states[k + 1];
    var m :| Moves(c, s, l, m) && s' == Moved(s, l.flight, m);
    hide SetLeads, CrowdedOut, AfterGet, Lookup, GotReply, HasSource, Failures, Step;
  }

  /** A flight that has failed as often in a row as it may, and has no challenge left to solve, is an error. */
  lemma FailuresDecide(c: Config, states: seq<Sys>, labels: seq<Label>, k: nat, i: nat, f: FlightId)
    requires Run(c, states, labels) && k < i <= |labels| && labels[k] == Answer(f, NoReply)
    ensures |states| == |labels| + 1 && f in states[k].flights && Failures(labels[..k], f) <= c.maxRetries
    ensures Failures(labels[..k], f) == c.maxRetries && f in states[i].delivered ==>
              Solved(labels, k, f) || !states[k].flights[f].solver ==> states[i].delivered[f] == Err
    ensures Failures(labels[..k], f) == c.maxRetries && !Solved(labels, k, f) && states[k].flights[f].solver ==>
              f in states[k + 1].flights && states[k + 1].flights[f].phase == Solving
  {
    OwnLabel(c, states, labels, k);
    hide Failures, Run;
    if Failures(labels[..k], f) == c.maxRetries && (Solved(labels, k, f) || !states[k].flights[f].solver)
       && f in states[i].delivered {
      SettledIsDelivered(c, states, labels, k, i, f, Err);
    }
  }

  // ---------- what is stored ----------

  predicate Pending(s: Sys, f: FlightId, url: string, r: Response)
  {
    Runs(s, f, url) && s.flights[f].phase == Storing(r)
  }

  /** A flight that holds a good reply stores it or has it still to store. */
  lemma {:induction false} ReplyIsStored(c: Config, states: seq<Sys>, labels: seq<Label>, k: nat, i: nat, f: FlightId,
                                         url: string, r: Response)
    requires Run(c, states, labels) && k < i <= |labels| && |states| == |labels| + 1
    requires Pending(states[k + 1], f, url, r)
    ensures Pending(states[i], f, url, r) || StoredBy(states, labels, k, i, f, url, r)
    decreases i
  {
    if k + 1 < i {
      ReplyIsStored(c, states, labels, k, i - 1, f, url, r);
      StepOf(c, states, labels, i - 1);
      StoredByStays(states, labels, k, i - 1, f, url, r);
      hide *;
      if !StoredBy(states, labels, k, i - 1, f, url, r) {
        StoringStep(c, states[i - 1], labels[i - 1], states[i], f, url, r);
      }
    }
  }

  lemma StoredByStays(states: seq<Sys>, labels: seq<Label>, k: nat, i: nat, f: FlightId, url: string, r: Response)
    requires k < i < |labels| < |states|
    ensures StoredBy(states, labels, k, i, f, url, r) || StoredNow(states[i], labels[i], states[i + 1], f, url, r) ==>
              StoredBy(states, labels, k, i + 1, f, url, r)
  {
    hide StoredNow;
  }

  /** The step stores r for url, unless its body is empty. */
  ghost predicate StoredNow(s: Sys, l: Label, s': Sys, f: FlightId, url: string, r: Response)
  {
    && l == Store(f)
    && (r.body != "" ==> url in s'.entries && s'.entries[url].resp == r && s'.clock < s'.entries[url].expires)
    && (r.body == "" ==> s'.entries == s.entries)
  }

  ghost predicate StoredBy(states: seq<Sys>, labels: seq<Label>, k: nat, i: nat, f: FlightId, url: string, r: Response)
    requires i <= |labels| < |states|
  {
    exists m :: k < m < i && StoredNow(states[m], labels[m], states[m + 1], f, url, r)
  }

  lemma StoringStep(c: Config, s: Sys, l: Label, s': Sys, f: FlightId, url: string, r: Response)
    requires c.ttl > 0 && c.cap > 0 && OneFlightPerUrl(s) && Step(c, s, l, s')
    requires Pending(s, f, url, r)
    ensures Pending(s', f, url, r) || StoredNow(s, l, s', f, url, r)
  {
    if f !in s'.flights {
      FlightEnds(c, s, l, s', f);
      assert false;
    }
    FlightStep(c, s, l, s', f);
    if l == Store(f) {
      var m :| Moves(c, s, l, m) && s' == Moved(s, f, m);
      if r.body != "" { SetOnlyAdds(c, s.entries, url, r, s.clock, m.entries); }
    }
    hide Step, OneFlightPerUrl, SetLeads, FoundCached, CrowdedOut;
  }

  /**
    A 200 reply that is no challenge page (or answers the replay) is stored before its flight delivers: right
    after the store an unexpired entry for the flight's URL holds it, unless its body is empty, and then the
    cache is as before.
   */
  lemma GoodReplyIsStored(c: Config, states: seq<Sys>, labels: seq<Label>, k: nat, i: nat, f: FlightId, r: Response)
    requires Run(c, states, labels) && k < i <= |labels| && GoodReply(c, labels, k, f, r) && f in states[i].delivered
    ensures |states| == |labels| + 1 && f in states[k].flights
    ensures StoredBy(states, labels, k, i, f, states[k].flights[f].url, r)
  {
    OwnLabel(c, states, labels, k);
    var url := states[k].flights[f].url;
    StepOf(c, states, labels, k);
    FlightStep(c, states[k], labels[k], states[k + 1], f);
    ReplyIsStored(c, states, labels, k, i, f, url, r);
    RunKeepsInv(c, states, labels, i);
    hide Run, Step, OneFlightPerUrl, NoNeedlessFetch, LogMatchesCache, RequestsJustified, StoredBy;
  }

  // ---------- what callers' own steps do ----------

  /** A caller is served at once if and only if the cache holds an unexpired response for its URL. */
  lemma BeginAnswers(c: Config, s: Sys, s': Sys, a: Caller, url: string)
    requires Step(c, s, Begin(a, url), s')
    ensures a in s'.callers
    ensures if url in s.entries && s.clock < s.entries[url].expires
            then s'.callers[a] == Served(Ok(s.entries[url].resp), None) else s'.callers[a] == Missed(url)
  {
    hide AfterGet;
  }

  /** A caller that missed waits for the flight that runs for its URL, or for a new one when none does. */
  lemma JoinLeads(c: Config, s: Sys, s': Sys, a: Caller, solver: bool)
    requires OneFlightPerUrl(s) && Step(c, s, Join(a, solver), s')
    ensures a in s.callers && s.callers[a].Missed? && a in s'.callers && s'.callers[a].Waiting?
    ensures var url, f := s.callers[a].url, s'.callers[a].flight;
            && Runs(s', f, url)
            && if exists g :: Runs(s, g, url) then Runs(s, f, url) && s'.flights == s.flights
               else f !in s.flights && s'.flights == s.flights[f := Flight(url, solver, Started)]
  {
    var url := s.callers[a].url;
    if url in s.group {
      assert Runs(s, s.group[url], url);
    } else {
      assert s'.callers[a].flight == s.nextId && s.nextId !in s.flights;
      assert forall g :: !Runs(s, g, url);
    }
  }

  lemma FlushEmpties(c: Config, s: Sys, s': Sys)
    requires Step(c, s, Label.Flush, s')
    ensures s'.entries == map[] && s'.callers == s.callers && s'.flights == s.flights && s'.delivered == s.delivered
  {
  }
}
