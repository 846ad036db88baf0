/**
  The protocol by which any number of caching clients share one Cache and one
  singleflight Group (internal/fetch/fetch.go): the outer cache check, joining or
  leading a flight, the inner check, the origin requests with their retries and the
  challenge replay, the store, the delivery to every waiter, and cancellation.

  Each step is one critical section of the code. A flight is the goroutine running
  the shared function; the group's map of flights by URL is kept apart from it.
 */
module FetchFlight {
  import opened Wrappers
  import opened FetchCache

  type Caller = nat
  type FlightId = nat

  datatype Result = Ok(resp: Response) | Err

  /** What one origin request brought back; NoReply covers every transport error. */
  datatype Reply = NoReply | Reply(status: int, resp: Response)

  datatype Phase =
    | Started                       // the goroutine runs, the inner check is still to come
    | Cleared                       // the inner check missed
    | Fetching(attempt: nat)        // origin request number `attempt` is under way
    | Solving                       // the challenge solver is at work
    | Replaying(attempt: nat)       // the request is replayed with the solver's cookies
    | Storing(resp: Response)       // a 200 reply is about to be handed to maybeCache
    | Finished(result: Result)      // the function has returned, the group's lock is not yet taken

  datatype Flight = Flight(url: string, solver: bool, phase: Phase)

  datatype Status =
    | Missed(url: string)
    | Waiting(flight: FlightId)
    | Served(result: Result, via: Option<FlightId>)
    | Cancelled

  datatype Event =
    | Requested(url: string, at: int)    // an origin request starts
    | Saved(url: string, at: int)
    | Evicted(urls: set<string>)         // unexpired entries that made way for another URL
    | Flushed

  /** challenge tells the interstitial page from a real reply. */
  datatype Config = Config(ttl: int, cap: nat, maxRetries: nat, challenge: (int, Response) -> bool)

  datatype Sys = Sys(
    clock: int,
    entries: Entries,
    flights: map<FlightId, Flight>,       // running goroutines
    group: map<string, FlightId>,         // the singleflight map
    waiters: map<FlightId, set<Caller>>,  // the channels a call will be sent on
    channel: map<Caller, Result>,         // what has been sent to each caller
    callers: map<Caller, Status>,
    nextId: FlightId,
    delivered: map<FlightId, Result>,
    log: seq<Event>
  )

  datatype Label =
    | Begin(caller: Caller, url: string)
    | Join(caller: Caller, solver: bool)
    | InnerCheck(flight: FlightId)
    | Request(flight: FlightId)
    | Answer(flight: FlightId, reply: Reply)
    | Solve(flight: FlightId, solved: bool)
    | Store(flight: FlightId)
    | Deliver(flight: FlightId)
    | Receive(caller: Caller)
    | Cancel(caller: Caller)
    | Flush
    | Tick(elapsed: int)

  const STATUS_OK := 200

  // ---------- the steps ----------

  function BeginStep(s: Sys, a: Caller, url: string): Sys
  {
    var hit := Lookup(s.entries, url, s.clock);
    s.(entries := AfterGet(s.entries, url, s.clock),
       callers := s.callers[a := if hit.Some? then Served(Ok(hit.value), None) else Missed(url)])
  }

  /** singleflight's DoChan: join the running call for the URL, or launch one and join that. */
  function JoinStep(s: Sys, a: Caller, solver: bool): Sys
    requires a in s.callers && s.callers[a].Missed?
  {
    var url := s.callers[a].url;
    if url in s.group then Joined(s, a, s.group[url])
    else Joined(Launched(s, url, solver), a, s.nextId)
  }

  function Launched(s: Sys, url: string, solver: bool): Sys
  {
    var f := s.nextId;
    s.(flights := s.flights[f := Flight(url, solver, Started)],
       group := s.group[url := f],
       waiters := s.waiters[f := {}],
       nextId := f + 1)
  }

  function Joined(s: Sys, a: Caller, f: FlightId): Sys
  {
    s.(waiters := s.waiters[f := (if f in s.waiters then s.waiters[f] else {}) + {a}],
       callers := s.callers[a := Waiting(f)])
  }

  /** What a running flight's own step may change: its phase, the cache and the log. */
  datatype Move = Move(phase: Phase, entries: Entries, log: seq<Event>)

  function Moved(s: Sys, f: FlightId, m: Move): Sys
    requires f in s.flights
  {
    s.(flights := s.flights[f := s.flights[f].(phase := m.phase)], entries := m.entries, log := m.log)
  }

  function To(s: Sys, phase: Phase): Move { Move(phase, s.entries, s.log) }

  function ToRequest(s: Sys, url: string, phase: Phase): Move
  {
    Move(phase, s.entries, s.log + [Requested(url, s.clock)])
  }

  function InnerCheckMove(s: Sys, url: string): Move
  {
    var hit := Lookup(s.entries, url, s.clock);
    Move(if hit.Some? then Finished(Ok(hit.value)) else Cleared, AfterGet(s.entries, url, s.clock), s.log)
  }

  /** One reply, for the first request (fetchDirect) or for the replay; a failed request is retried first. */
  function AnswerMove(c: Config, s: Sys, flight: Flight, reply: Reply): Move
    requires flight.phase.Fetching? || flight.phase.Replaying?
  {
    match flight.phase
    case Fetching(n) =>
      if reply.NoReply? && n < c.maxRetries then ToRequest(s, flight.url, Fetching(n + 1))
      else if reply.Reply? && !c.challenge(reply.status, reply.resp) then
        To(s, if reply.status == STATUS_OK then Storing(reply.resp) else Finished(Err))
      else To(s, if flight.solver then Solving else Finished(Err))
    case Replaying(n) =>
      if reply.NoReply? && n < c.maxRetries then ToRequest(s, flight.url, Replaying(n + 1))
      else To(s, if reply.Reply? && reply.status == STATUS_OK then Storing(reply.resp) else Finished(Err))
  }

  /** maybeCache, then the flight's function returns. */
  ghost predicate StoreMove(c: Config, s: Sys, url: string, resp: Response, m: Move)
  {
    && m.phase == Finished(Ok(resp))
    && if resp.body == "" then m.entries == s.entries && m.log == s.log
       else
         && SetLeads(c.ttl, c.cap, s.entries, url, resp, s.clock, s.clock, m.entries)
         && m.log == s.log + [Evicted(CrowdedOut(s.entries, m.entries, s.clock)), Saved(url, s.clock)]
  }

  /** Labels of steps that a running flight takes on its own. */
  predicate OfFlight(l: Label) { l.InnerCheck? || l.Request? || l.Answer? || l.Solve? || l.Store? }

  ghost predicate Moves(c: Config, s: Sys, l: Label, m: Move)
    requires OfFlight(l)
  {
    && l.flight in s.flights
    && var flight := s.flights[l.flight];
       match l
       case InnerCheck(_) => flight.phase == Started && m == InnerCheckMove(s, flight.url)
       case Request(_) => flight.phase == Cleared && m == ToRequest(s, flight.url, Fetching(0))
       case Answer(_, reply) =>
         (flight.phase.Fetching? || flight.phase.Replaying?) && m == AnswerMove(c, s, flight, reply)
       case Solve(_, solved) =>
         flight.phase == Solving &&
         m == if solved then ToRequest(s, flight.url, Replaying(0)) else To(s, Finished(Err))
       case Store(_) => flight.phase.Storing? && StoreMove(c, s, flight.url, flight.phase.resp, m)
  }

  function CrowdedOut(before: Entries, after: Entries, now: int): set<string>
  {
    set k | k in before && k !in after && now < before[k].expires
  }

  function DeliverStep(s: Sys, f: FlightId): Sys
    requires f in s.flights && s.flights[f].phase.Finished?
  {
    var result, url := s.flights[f].phase.result, s.flights[f].url;
    var all := if f in s.waiters then s.waiters[f] else {};
    s.(flights := s.flights - {f},
       group := if url in s.group && s.group[url] == f then s.group - {url} else s.group,
       channel := map a | a in s.channel.Keys + all :: if a in all then result else s.channel[a],
       delivered := s.delivered[f := result])
  }

  ghost predicate Step(c: Config, s: Sys, l: Label, s': Sys)
  {
    if OfFlight(l) then exists m :: Moves(c, s, l, m) && s' == Moved(s, l.flight, m) else
    match l
    case Begin(a, url) => a !in s.callers && s' == BeginStep(s, a, url)
    case Join(a, solver) => a in s.callers && s.callers[a].Missed? && s' == JoinStep(s, a, solver)
    case Deliver(f) => f in s.flights && s.flights[f].phase.Finished? && s' == DeliverStep(s, f)
    case Receive(a) =>
      a in s.callers && s.callers[a].Waiting? && a in s.channel &&
      s' == s.(callers := s.callers[a := Served(s.channel[a], Some(s.callers[a].flight))])
    case Cancel(a) => a in s.callers && s.callers[a].Waiting? && s' == s.(callers := s.callers[a := Cancelled])
    case Flush => s' == s.(entries := map[], log := s.log + [Flushed])
    case Tick(elapsed) => elapsed > 0 && s' == s.(clock := s.clock + elapsed)
  }

  ghost predicate Initial(s: Sys)
  {
    && s.entries == map[] && s.flights == map[] && s.group == map[] && s.waiters == map[]
    && s.channel == map[] && s.callers == map[] && s.delivered == map[] && s.log == []
  }

  ghost predicate Run(c: Config, states: seq<Sys>, labels: seq<Label>)
  {
    && c.ttl > 0 && c.cap > 0
    && |states| == |labels| + 1 && Initial(states[0])
    && forall i :: 0 <= i < |labels| ==> Step(c, states[i], labels[i], states[i + 1])
  }

  // ---------- what every reachable state keeps ----------

  /** The group's map lists exactly the running flights, so a URL has at most one. */
  ghost predicate OneFlightPerUrl(s: Sys)
  {
    && (forall f :: f in s.flights ==> f < s.nextId && s.flights[f].url in s.group && s.group[s.flights[f].url] == f)
    && (forall u :: u in s.group ==> s.group[u] in s.flights && s.flights[s.group[u]].url == u)
  }

  predicate AtOrigin(phase: Phase)
  {
    phase.Cleared? || phase.Fetching? || phase.Solving? || phase.Replaying? || phase.Storing?
  }

  /** While a flight is past its inner check and has not stored, its URL has no unexpired entry. */
  ghost predicate NoNeedlessFetch(s: Sys)
  {
    forall f :: f in s.flights && AtOrigin(s.flights[f].phase) ==> !LiveAt(s.entries, s.flights[f].url, s.clock)
  }

  /** Callers and channels agree with what each flight delivered. */
  ghost predicate SharedResult(s: Sys)
  {
    Ledger(s) && forall a :: a in s.callers ==> Accounted(s, a)
  }

  ghost predicate Ledger(s: Sys)
  {
    && (forall f :: f in s.delivered ==> f < s.nextId && f !in s.flights)
    && (forall f :: f in s.flights ==> f < s.nextId && f in s.waiters)
    && (forall f, a :: f in s.flights && a in s.waiters[f] ==>
          a in s.callers && (s.callers[a] == Waiting(f) || s.callers[a] == Cancelled))
    && (forall a :: a in s.channel ==> a in s.callers && !s.callers[a].Missed?)
  }

  /**
    A waiting caller is listed by its running flight, or has in its channel what that flight delivered;
    a caller served by a flight has what it delivered.
   */
  ghost predicate Accounted(s: Sys, a: Caller)
    requires a in s.callers
  {
    match s.callers[a]
    case Missed(_) => true
    case Waiting(f) =>
      if f in s.flights then f in s.waiters && a in s.waiters[f] && a !in s.channel
      else f in s.delivered && a in s.channel && s.channel[a] == s.delivered[f]
    case Served(result, via) => via.Some? ==> via.value in s.delivered && s.delivered[via.value] == result
    case Cancelled => true
  }

  // ---------- the log ----------

  /** What one event makes of the latest standing store of url. */
  function Outcome(e: Event, before: Option<int>, url: string): Option<int>
  {
    match e
    case Saved(u, at) => if u == url then Some(at) else before
    case Evicted(urls) => if url in urls then None else before
    case Flushed => None
    case Requested(_, _) => before
  }

  /** The latest store of url that no later eviction or flush undid. */
  function Standing(log: seq<Event>, url: string): Option<int>
  {
    if log == [] then None else Outcome(log[|log| - 1], Standing(log[..|log| - 1], url), url)
  }

  /** A store that stands and has not run out means a live entry. */
  ghost predicate LogMatchesCache(c: Config, s: Sys)
  {
    forall u :: Standing(s.log, u).Some? ==>
      Standing(s.log, u).value <= s.clock &&
      (s.clock < Standing(s.log, u).value + c.ttl ==> LiveAt(s.entries, u, s.clock))
      && (u in s.entries ==> s.entries[u].expires == Standing(s.log, u).value + c.ttl)
  }

  /** Every origin request in the log was made while no store of its URL stood unexpired. */
  ghost predicate RequestsJustified(c: Config, log: seq<Event>)
  {
    forall j :: 0 <= j < |log| && log[j].Requested? ==>
      var standing := Standing(log[..j], log[j].url);
      standing.Some? ==> log[j].at >= standing.value + c.ttl
  }

  ghost predicate Inv(c: Config, s: Sys)
  {
    OneFlightPerUrl(s) && NoNeedlessFetch(s) && SharedResult(s) && LogMatchesCache(c, s) && RequestsJustified(c, s.log)
  }

  lemma StandingSnoc(log: seq<Event>, e: Event, url: string)
    ensures Standing(log + [e], url) == Outcome(e, Standing(log, url), url)
  {
    assert (log + [e])[..|log|] == log;
  }

  // ---------- one step at a time ----------

  /** A set leaves every other URL's entry alone or drops it. */
  lemma SetOnlyAdds(c: Config, entries: Entries, url: string, resp: Response, now: int, entries': Entries)
    requires c.cap > 0 && SetLeads(c.ttl, c.cap, entries, url, resp, now, now, entries')
    ensures url in entries' && entries'[url] == Entry(resp, now + c.ttl)
    ensures forall k :: k in entries' && k != url ==> k in entries && entries'[k] == entries[k]
  {
  }

  /** How a flight's own step treats the cache: only its own URL, and not at all while at the origin. */
  lemma MoveEntries(c: Config, s: Sys, l: Label, m: Move)
    requires c.cap > 0 && OfFlight(l) && Moves(c, s, l, m)
    ensures var flight := s.flights[l.flight];
            && (forall k :: k in m.entries && k != flight.url ==> k in s.entries && m.entries[k] == s.entries[k])
            && (AtOrigin(m.phase) && AtOrigin(flight.phase) ==> m.entries == s.entries)
            && (AtOrigin(m.phase) && !AtOrigin(flight.phase) ==> !LiveAt(m.entries, flight.url, s.clock))
  {
    if l.Store? && s.flights[l.flight].phase.resp.body != "" {
      var flight := s.flights[l.flight];
      SetOnlyAdds(c, s.entries, flight.url, flight.phase.resp, s.clock, m.entries);
    }
    hide SetLeads, CrowdedOut;
  }

  lemma FlightsKept(c: Config, s: Sys, l: Label, s': Sys)
    requires OneFlightPerUrl(s) && Step(c, s, l, s')
    ensures OneFlightPerUrl(s')
  {
    if OfFlight(l) {
      var m :| Moves(c, s, l, m) && s' == Moved(s, l.flight, m);
      hide Moves, Step;
    } else if l.Join? {
      JoinKeepsFlights(s, l.caller, l.solver);
      hide OneFlightPerUrl, JoinStep;
    } else if l.Deliver? {
      DeliverKeepsFlights(s, l.flight);
      hide OneFlightPerUrl, DeliverStep;
    }
  }

  lemma JoinKeepsFlights(s: Sys, a: Caller, solver: bool)
    requires OneFlightPerUrl(s) && a in s.callers && s.callers[a].Missed?
    ensures OneFlightPerUrl(JoinStep(s, a, solver))
  {
  }

  lemma DeliverKeepsFlights(s: Sys, f: FlightId)
    requires OneFlightPerUrl(s) && f in s.flights && s.flights[f].phase.Finished?
    ensures OneFlightPerUrl(DeliverStep(s, f))
  {
  }

  lemma NoNeedlessFetchKept(c: Config, s: Sys, l: Label, s': Sys)
    requires c.cap > 0 && OneFlightPerUrl(s) && NoNeedlessFetch(s) && Step(c, s, l, s')
    ensures NoNeedlessFetch(s')
  {
    if OfFlight(l) {
      var m :| Moves(c, s, l, m) && s' == Moved(s, l.flight, m);
      MoveEntries(c, s, l, m);
      hide Moves, Step;
    } else {
      NoNeedlessFetchElse(c, s, l, s');
      hide *;
    }
  }

  lemma NoNeedlessFetchElse(c: Config, s: Sys, l: Label, s': Sys)
    requires OneFlightPerUrl(s) && NoNeedlessFetch(s) && Step(c, s, l, s') && !OfFlight(l)
    ensures NoNeedlessFetch(s')
  {
    LookupsOnlyDrop(c, s, l, s');
    FlightsOnlyStart(c, s, l, s');
    hide Step, OneFlightPerUrl;
  }

  lemma LookupsOnlyDrop(c: Config, s: Sys, l: Label, s': Sys)
    requires Step(c, s, l, s') && !OfFlight(l)
    ensures forall k :: LiveAt(s'.entries, k, s'.clock) ==> LiveAt(s.entries, k, s.clock)
  {
  }

  lemma FlightsOnlyStart(c: Config, s: Sys, l: Label, s': Sys)
    requires OneFlightPerUrl(s) && Step(c, s, l, s') && !OfFlight(l)
    ensures forall f :: f in s'.flights && AtOrigin(s'.flights[f].phase) ==>
            f in s.flights && s'.flights[f] == s.flights[f]
  {
    hide LiveAt, Lookup, AfterGet;
  }

  lemma SharedResultKept(c: Config, s: Sys, l: Label, s': Sys)
    requires OneFlightPerUrl(s) && SharedResult(s) && Step(c, s, l, s')
    ensures SharedResult(s')
  {
    if OfFlight(l) {
      var m :| Moves(c, s, l, m) && s' == Moved(s, l.flight, m);
      MovedShares(s, l.flight, m);
      hide Moves, Moved, SharedResult, Step, OneFlightPerUrl;
    } else if l.Join? {
      JoinShares(s, l.caller, l.solver);
      hide SharedResult, JoinStep;
    } else if l.Deliver? {
      DeliverShares(s, l.flight);
      hide SharedResult, DeliverStep;
    } else {
      ElseShares(c, s, l, s');
      hide SharedResult, Step;
    }
  }

  lemma ElseShares(c: Config, s: Sys, l: Label, s': Sys)
    requires SharedResult(s) && Step(c, s, l, s') && !OfFlight(l) && !l.Join? && !l.Deliver?
    ensures SharedResult(s')
  {
    if l.Flush? || l.Tick? {
      assert s' == s.(entries := s'.entries, log := s'.log, clock := s'.clock) by { hide SharedResult; }
      hide Step;
      TimeShares(s, s');
      hide SharedResult;
    } else {
      Recast(s, s', l.caller, s'.callers[l.caller]);
      hide SharedResult, AfterGet, Lookup;
    }
  }

  lemma TimeShares(s: Sys, s': Sys)
    requires SharedResult(s) && s' == s.(entries := s'.entries, log := s'.log, clock := s'.clock)
    ensures SharedResult(s')
  {
    assert forall a :: a in s.callers ==> Accounted(s', a) == Accounted(s, a);
    hide Accounted;
  }

  lemma MovedShares(s: Sys, f: FlightId, m: Move)
    requires SharedResult(s) && f in s.flights
    ensures SharedResult(Moved(s, f, m))
  {
    var s' := Moved(s, f, m);
    assert s'.flights.Keys == s.flights.Keys;
    assert forall a :: a in s.callers ==> Accounted(s, a);
  }

  /** One caller's status changes, to one its flight's books allow. */
  lemma Recast(s: Sys, s': Sys, a: Caller, status: Status)
    requires SharedResult(s)
    requires s' == s.(entries := s'.entries, callers := s.callers[a := status])
    requires a in s.callers ==> s.callers[a].Waiting?
    requires match status
             case Missed(_) => a !in s.callers
             case Waiting(_) => false
             case Served(result, via) =>
               if via.None? then a !in s.callers
               else a in s.callers && s.callers[a] == Waiting(via.value) && a in s.channel && result == s.channel[a]
             case Cancelled => true
    ensures SharedResult(s')
  {
    assert a in s.callers ==> Accounted(s, a);
    forall b | b in s'.callers
      ensures Accounted(s', b)
    {
      assert b in s.callers ==> Accounted(s, b);
    }
  }

  lemma JoinShares(s: Sys, a: Caller, solver: bool)
    requires OneFlightPerUrl(s) && SharedResult(s) && a in s.callers && s.callers[a].Missed?
    ensures SharedResult(JoinStep(s, a, solver))
  {
    var url := s.callers[a].url;
    if url in s.group {
      JoinedShares(s, a, s.group[url]);
    } else {
      LaunchShares(s, url, solver);
      JoinedShares(Launched(s, url, solver), a, s.nextId);
    }
    hide SharedResult, Joined;
  }

  lemma LaunchShares(s: Sys, url: string, solver: bool)
    requires SharedResult(s)
    ensures SharedResult(Launched(s, url, solver))
  {
    var t := Launched(s, url, solver);
    forall b | b in t.callers
      ensures Accounted(t, b)
    {
      assert Accounted(s, b);
    }
  }

  lemma JoinedShares(s: Sys, a: Caller, f: FlightId)
    requires SharedResult(s) && a in s.callers && s.callers[a].Missed? && f in s.flights
    ensures SharedResult(Joined(s, a, f))
  {
    var s' := Joined(s, a, f);
    forall b | b in s'.callers
      ensures Accounted(s', b)
    {
      assert Accounted(s, b);
    }
  }

  lemma DeliverShares(s: Sys, f: FlightId)
    requires SharedResult(s) && f in s.flights && s.flights[f].phase.Finished?
    ensures SharedResult(DeliverStep(s, f))
  {
    var s' := DeliverStep(s, f);
    forall b | b in s'.callers
      ensures Accounted(s', b)
    {
      DeliverAccounts(s, f, b);
    }
    hide Accounted;
  }

  lemma DeliverAccounts(s: Sys, f: FlightId, b: Caller)
    requires SharedResult(s) && f in s.flights && s.flights[f].phase.Finished? && b in s.callers
    ensures Accounted(DeliverStep(s, f), b)
  {
    assert Accounted(s, b);
  }

  lemma LogKept(c: Config, s: Sys, l: Label, s': Sys)
    requires c.ttl > 0 && c.cap > 0 && LogMatchesCache(c, s) && Step(c, s, l, s')
    ensures LogMatchesCache(c, s')
  {
    if OfFlight(l) {
      var m :| Moves(c, s, l, m) && s' == Moved(s, l.flight, m);
      MoveLogKept(c, s, l, m);
      hide Moves, Step;
    } else if l.Flush? {
      forall u
        ensures Standing(s'.log, u) == None
      {
        StandingSnoc(s.log, Flushed, u);
      }
      hide Standing;
    } else {
      ClockAndLookups(c, s, l, s');
      hide Step, Standing;
    }
  }

  lemma MoveLogKept(c: Config, s: Sys, l: Label, m: Move)
    requires c.ttl > 0 && c.cap > 0 && LogMatchesCache(c, s) && OfFlight(l) && Moves(c, s, l, m)
    ensures LogMatchesCache(c, s.(entries := m.entries, log := m.log))
  {
    if l.Store? && m.log != s.log {
      StoreLogKept(c, s, s.flights[l.flight].url, s.flights[l.flight].phase.resp, m);
      hide LogMatchesCache;
    } else {
      assert m.entries == s.entries || m.entries == AfterGet(s.entries, s.flights[l.flight].url, s.clock);
      if m.log != s.log {
        assert m.log == s.log + [Requested(s.flights[l.flight].url, s.clock)];
      }
      forall u
        ensures Standing(m.log, u) == Standing(s.log, u)
      {
        StandingSnoc(s.log, Requested(s.flights[l.flight].url, s.clock), u);
      }
      hide Standing, Moves;
    }
  }

  lemma ClockAndLookups(c: Config, s: Sys, l: Label, s': Sys)
    requires Step(c, s, l, s') && !OfFlight(l) && !l.Flush?
    ensures s'.log == s.log && s'.clock >= s.clock
    ensures forall k :: LiveAt(s.entries, k, s'.clock) ==> k in s'.entries
    ensures forall k :: k in s'.entries ==> k in s.entries && s'.entries[k] == s.entries[k]
  {
  }

  lemma StoreLogKept(c: Config, s: Sys, url: string, resp: Response, m: Move)
    requires c.ttl > 0 && c.cap > 0 && LogMatchesCache(c, s) && StoreMove(c, s, url, resp, m) && m.log != s.log
    ensures LogMatchesCache(c, s.(entries := m.entries, log := m.log))
  {
    SetOnlyAdds(c, s.entries, url, resp, s.clock, m.entries);
    var e := Evicted(CrowdedOut(s.entries, m.entries, s.clock));
    assert m.log == (s.log + [e]) + [Saved(url, s.clock)];
    forall u
      ensures Standing(m.log, u) == if u == url then Some(s.clock) else Outcome(e, Standing(s.log, u), u)
    {
      StandingSnoc(s.log, e, u);
      StandingSnoc(s.log + [e], Saved(url, s.clock), u);
    }
    hide SetLeads, Standing, StoreMove;
  }

  /** A step that starts an origin request does so for a URL without an unexpired entry. */
  lemma RequestsFindNothing(c: Config, s: Sys, l: Label, s': Sys)
    requires NoNeedlessFetch(s) && Step(c, s, l, s')
    ensures s.log <= s'.log
    ensures forall j :: |s.log| <= j < |s'.log| && s'.log[j].Requested? ==>
              && j == |s.log| && s'.log[j].at == s.clock
              && !LiveAt(s.entries, s'.log[j].url, s.clock)
  {
    if OfFlight(l) {
      var m :| Moves(c, s, l, m) && s' == Moved(s, l.flight, m);
      MoveRequests(c, s, l, m);
      hide Moves, Step, NoNeedlessFetch;
    }
    hide JoinStep, DeliverStep, SetLeads, CrowdedOut, LiveAt;
  }

  lemma MoveRequests(c: Config, s: Sys, l: Label, m: Move)
    requires NoNeedlessFetch(s) && OfFlight(l) && Moves(c, s, l, m)
    ensures s.log <= m.log
    ensures forall j :: |s.log| <= j < |m.log| && m.log[j].Requested? ==>
              && j == |s.log| && m.log[j].at == s.clock
              && !LiveAt(s.entries, m.log[j].url, s.clock)
  {
    hide SetLeads, CrowdedOut, LiveAt;
  }

  lemma RequestsStayJustified(c: Config, s: Sys, l: Label, s': Sys)
    requires NoNeedlessFetch(s) && LogMatchesCache(c, s) && RequestsJustified(c, s.log) && Step(c, s, l, s')
    ensures RequestsJustified(c, s'.log)
  {
    RequestsFindNothing(c, s, l, s');
    hide Step;
    forall j | 0 <= j < |s'.log| && s'.log[j].Requested?
      ensures var standing := Standing(s'.log[..j], s'.log[j].url);
              standing.Some? ==> s'.log[j].at >= standing.value + c.ttl
    {
      assert s'.log[..|s.log|] == s.log;
      if j < |s.log| {
        assert s'.log[..j] == s.log[..j];
      }
    }
  }

  lemma {:induction false} RunKeepsInv(c: Config, states: seq<Sys>, labels: seq<Label>, i: nat)
    requires Run(c, states, labels) && i <= |labels|
    ensures Inv(c, states[i])
  {
    if i > 0 {
      RunKeepsInv(c, states, labels, i - 1);
      var s, l, s' := states[i - 1], labels[i - 1], states[i];
      assert Step(c, s, l, s');
      FlightsKept(c, s, l, s');
      NoNeedlessFetchKept(c, s, l, s');
      SharedResultKept(c, s, l, s');
      LogKept(c, s, l, s');
      RequestsStayJustified(c, s, l, s');
      hide Step;
    }
  }

  // ---------- what a client may rely on ----------

  /** In every reachable state no two running flights share a URL. */
  lemma AtMostOneFlight(c: Config, states: seq<Sys>, labels: seq<Label>, i: nat, f: FlightId, g: FlightId)
    requires Run(c, states, labels) && i <= |labels|
    requires f in states[i].flights && g in states[i].flights && states[i].flights[f].url == states[i].flights[g].url
    ensures f == g
  {
    RunKeepsInv(c, states, labels, i);
  }

  /** No step of any run starts an origin request for a URL whose entry is unexpired at that moment. */
  lemma NoRequestWhileLive(c: Config, states: seq<Sys>, labels: seq<Label>, i: nat, url: string, at: int)
    requires Run(c, states, labels) && i < |labels|
    requires |states[i].log| < |states[i + 1].log| && states[i + 1].log[|states[i].log|] == Requested(url, at)
    ensures at == states[i].clock && !LiveAt(states[i].entries, url, at)
  {
    RunKeepsInv(c, states, labels, i);
    assert Step(c, states[i], labels[i], states[i + 1]);
    RequestsFindNothing(c, states[i], labels[i], states[i + 1]);
  }

  /** Callers served by one flight were given one and the same result. */
  lemma SameFlightSameResult(c: Config, states: seq<Sys>, labels: seq<Label>, i: nat, a: Caller, b: Caller)
    requires Run(c, states, labels) && i <= |labels|
    requires a in states[i].callers && states[i].callers[a].Served? && states[i].callers[a].via.Some?
    requires b in states[i].callers && states[i].callers[b].Served?
    requires states[i].callers[a].via == states[i].callers[b].via
    ensures states[i].callers[a].result == states[i].callers[b].result
  {
    RunKeepsInv(c, states, labels, i);
  }

  /** Once its flight has delivered, a caller that is still waiting has that flight's result to receive. */
  lemma NobodyIsForgotten(c: Config, states: seq<Sys>, labels: seq<Label>, i: nat, a: Caller)
    requires Run(c, states, labels) && i <= |labels|
    requires a in states[i].callers && states[i].callers[a].Waiting?
    ensures var s, f := states[i], states[i].callers[a].flight;
            if f in s.flights then f !in s.delivered
            else a in s.channel && f in s.delivered && s.channel[a] == s.delivered[f]
  {
    RunKeepsInv(c, states, labels, i);
  }

  lemma {:induction false} StandingHolds(log: seq<Event>, i: nat, j: nat, url: string, at: int)
    requires i < j <= |log| && log[i] == Saved(url, at)
    requires forall k :: i < k < j ==> !log[k].Flushed? && (log[k].Evicted? ==> url !in log[k].urls)
                                       && (log[k].Saved? ==> log[k].url != url)
    ensures Standing(log[..j], url) == Some(at)
    decreases j
  {
    assert log[..j] == log[..j - 1] + [log[j - 1]];
    StandingSnoc(log[..j - 1], log[j - 1], url);
    if j > i + 1 {
      StandingHolds(log, i, j - 1, url, at);
    }
  }

  /**
    Between a store of a URL and the next origin request for it (with no other store of it in between),
    its entry expired, or was evicted, or the cache was flushed.
   */
  lemma RefetchHasACause(c: Config, states: seq<Sys>, labels: seq<Label>, n: nat, i: nat, j: nat, url: string, at: int,
                         then_: int)
    requires Run(c, states, labels) && n <= |labels|
    requires i < j < |states[n].log| && states[n].log[i] == Saved(url, at) && states[n].log[j] == Requested(url, then_)
    requires forall k :: i < k < j && states[n].log[k].Saved? ==> states[n].log[k].url != url
    ensures then_ >= at + c.ttl
         || exists k :: i < k < j && (states[n].log[k].Flushed?
             || (states[n].log[k].Evicted? && url in states[n].log[k].urls))
  {
    RunKeepsInv(c, states, labels, n);
    var log := states[n].log;
    if forall k :: i < k < j ==> !log[k].Flushed? && (log[k].Evicted? ==> url !in log[k].urls) {
      StandingHolds(log, i, j, url, at);
    }
  }

  // ---------- cancellation ----------

  /** a stops waiting: it gives up, or takes what was sent to it. */
  predicate Settles(l: Label, a: Caller) { l == Cancel(a) || l == Receive(a) }

  function Graft(s: Sys, a: Caller, status: Status): Sys
  {
    s.(callers := s.callers[a := status])
  }

  lemma MovesIgnoreCallers(c: Config, s: Sys, l: Label, m: Move, t: Sys)
    requires OfFlight(l) && Moves(c, s, l, m) && t == s.(callers := t.callers)
    ensures Moves(c, t, l, m)
  {
    hide SetLeads, AfterGet, Lookup, CrowdedOut;
  }

  lemma OthersMove(c: Config, s: Sys, l: Label, s': Sys, a: Caller, status: Status)
    requires OfFlight(l) && Step(c, s, l, s')
    ensures Step(c, Graft(s, a, status), l, Graft(s', a, status))
  {
    var m :| Moves(c, s, l, m) && s' == Moved(s, l.flight, m);
    MovesIgnoreCallers(c, s, l, m, Graft(s, a, status));
    hide Moves;
    assert Graft(s', a, status) == Moved(Graft(s, a, status), l.flight, m);
  }

  lemma OthersJoin(s: Sys, b: Caller, solver: bool, a: Caller, status: Status)
    requires a != b && b in s.callers && s.callers[b].Missed?
    ensures JoinStep(Graft(s, a, status), b, solver) == Graft(JoinStep(s, b, solver), a, status)
  {
    var url := s.callers[b].url;
    if url in s.group {
      OthersJoined(s, b, s.group[url], a, status);
    } else {
      assert Launched(Graft(s, a, status), url, solver) == Graft(Launched(s, url, solver), a, status);
      OthersJoined(Launched(s, url, solver), b, s.nextId, a, status);
    }
    hide Launched, Joined;
  }

  lemma OthersJoined(s: Sys, b: Caller, f: FlightId, a: Caller, status: Status)
    requires a != b
    ensures Joined(Graft(s, a, status), b, f) == Graft(Joined(s, b, f), a, status)
  {
    assert s.callers[a := status][b := Waiting(f)] == s.callers[b := Waiting(f)][a := status];
  }

  lemma OthersBegin(s: Sys, b: Caller, url: string, a: Caller, status: Status)
    requires a != b
    ensures BeginStep(Graft(s, a, status), b, url) == Graft(BeginStep(s, b, url), a, status)
  {
    var mine := BeginStep(s, b, url).callers[b];
    assert s.callers[a := status][b := mine] == s.callers[b := mine][a := status];
    hide AfterGet, Lookup;
  }

  lemma OthersElse(c: Config, s: Sys, l: Label, s': Sys, a: Caller, status: Status)
    requires Step(c, s, l, s') && !Settles(l, a) && (l.Deliver? || l.Receive? || l.Cancel? || l.Flush? || l.Tick?)
    ensures Step(c, Graft(s, a, status), l, Graft(s', a, status))
  {
    if l.Receive? || l.Cancel? {
      var b, mine := l.caller, s'.callers[l.caller];
      assert s.callers[a := status][b := mine] == s.callers[b := mine][a := status];
    }
  }

  /** A step of anybody else is possible just the same, with the same outcome, whatever became of a. */
  lemma OthersStep(c: Config, s: Sys, l: Label, s': Sys, a: Caller, status: Status)
    requires a in s.callers && Step(c, s, l, s') && !Settles(l, a) && !(l.Join? && l.caller == a)
    ensures Step(c, Graft(s, a, status), l, Graft(s', a, status))
  {
    if OfFlight(l) {
      OthersMove(c, s, l, s', a, status);
      hide Step;
    } else if l.Begin? {
      OthersBegin(s, l.caller, l.url, a, status);
      hide BeginStep;
    } else if l.Join? {
      OthersJoin(s, l.caller, l.solver, a, status);
      hide JoinStep;
    } else {
      OthersElse(c, s, l, s', a, status);
      hide Step;
    }
  }

  function Without(labels: seq<Label>, a: Caller): seq<Label>
  {
    if labels == [] then [] else
    var before := Without(labels[..|labels| - 1], a);
    if Settles(labels[|labels| - 1], a) then before else before + [labels[|labels| - 1]]
  }

  /** t is s, or s before a stopped waiting. */
  ghost predicate SameButFor(s: Sys, t: Sys, a: Caller)
  {
    t == s || (a in s.callers && !s.callers[a].Missed? && !s.callers[a].Waiting?
               && a in t.callers && t == Graft(s, a, t.callers[a]))
  }

  /**
    Strike a caller's cancellation (or its receipt) out of any run: what is left is a run, and it ends
    in the same cache, flights, group, channels and log, with every other caller in the same position.
   */
  lemma {:induction false} CancellationIsPrivate(c: Config, states: seq<Sys>, labels: seq<Label>, a: Caller)
    returns (rest: seq<Sys>)
    requires Run(c, states, labels)
    ensures Run(c, rest, Without(labels, a))
    ensures |rest| == |Without(labels, a)| + 1 && |states| == |labels| + 1
    ensures SameButFor(states[|labels|], rest[|rest| - 1], a)
    decreases |labels|
  {
    hide *;
    RunBegins(c, states, labels, a);
    if labels == [] {
      return states;
    }
    var n := |labels| - 1;
    var s, l, s' := states[n], labels[n], states[n + 1];
    RunSplit(c, states, labels);
    rest := CancellationIsPrivate(c, states[..n + 1], labels[..n], a);
    var t := rest[|rest| - 1];
    if Settles(l, a) {
      SettlingShows(c, s, l, s', a, t);
    } else {
      var t' := StepBeside(c, s, l, s', a, t);
      RunGrows(c, rest, Without(labels[..n], a), l, t');
      rest := rest + [t'];
    }
  }

  lemma RunBegins(c: Config, states: seq<Sys>, labels: seq<Label>, a: Caller)
    requires Run(c, states, labels)
    ensures |states| == |labels| + 1 && SameButFor(states[0], states[0], a)
    ensures labels == [] ==> Without(labels, a) == labels
    ensures labels != [] ==>
              var before, l := Without(labels[..|labels| - 1], a), labels[|labels| - 1];
              Without(labels, a) == if Settles(l, a) then before else before + [l]
  {
    hide Step, Initial;
  }

  lemma SettlingShows(c: Config, s: Sys, l: Label, s': Sys, a: Caller, t: Sys)
    requires Step(c, s, l, s') && Settles(l, a) && SameButFor(s, t, a)
    ensures SameButFor(s', t, a)
  {
    assert s == Graft(s', a, s.callers[a]);
  }

  lemma StepBeside(c: Config, s: Sys, l: Label, s': Sys, a: Caller, t: Sys) returns (t': Sys)
    requires Step(c, s, l, s') && !Settles(l, a) && SameButFor(s, t, a)
    ensures Step(c, t, l, t') && SameButFor(s', t', a)
  {
    t' := if t == s then s' else Graft(s', a, t.callers[a]);
    if t != s {
      SettledStays(c, s, l, s', a);
      OthersStep(c, s, l, s', a, t.callers[a]);
      hide Step;
    }
  }

  lemma RunSplit(c: Config, states: seq<Sys>, labels: seq<Label>)
    requires Run(c, states, labels) && labels != []
    ensures var n := |labels| - 1;
            |states| == n + 2 && Run(c, states[..n + 1], labels[..n]) && Step(c, states[n], labels[n], states[n + 1])
  {
    hide Step, Initial;
  }

  lemma RunGrows(c: Config, states: seq<Sys>, labels: seq<Label>, l: Label, s': Sys)
    requires Run(c, states, labels) && Step(c, states[|labels|], l, s')
    ensures Run(c, states + [s'], labels + [l])
  {
    hide Step, Initial;
  }

  lemma SettledStays(c: Config, s: Sys, l: Label, s': Sys, a: Caller)
    requires Step(c, s, l, s') && a in s.callers && !s.callers[a].Missed? && !s.callers[a].Waiting?
    ensures a in s'.callers && s'.callers[a] == s.callers[a]
  {
  }
}
