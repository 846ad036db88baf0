/**
  The bounded TTL cache of successful responses (internal/fetch/cache.go), against
  an ideal cache that remembers the last response stored for every URL.

  Times are integers (nanoseconds). `Set` reads the clock twice: once to look for
  expired entries (scan) and once to stamp the new one (stamp).
 */
module FetchCache {
  import opened Wrappers
  import opened Sets

  const DEFAULT_MAX_ENTRIES: nat := 1000

  datatype Response = Response(body: string, header: string)

  datatype Entry = Entry(resp: Response, expires: int)

  /** What the ideal cache remembers of a URL. */
  datatype Stored = Stored(resp: Response, at: int)

  type Entries = map<string, Entry>
  type Memory = map<string, Stored>

  function Capacity(maxEntries: int): (cap: nat)
    ensures cap > 0
  {
    if maxEntries <= 0 then DEFAULT_MAX_ENTRIES else maxEntries
  }

  predicate LiveAt(entries: Entries, url: string, now: int)
  {
    url in entries && now < entries[url].expires
  }

  function Lookup(entries: Entries, url: string, now: int): Option<Response>
  {
    if LiveAt(entries, url, now) then Some(entries[url].resp) else None
  }

  function AfterGet(entries: Entries, url: string, now: int): Entries
  {
    if url in entries && !LiveAt(entries, url, now) then entries - {url} else entries
  }

  function Unexpired(entries: Entries, now: int): Entries
  {
    map k | k in entries && now < entries[k].expires :: entries[k]
  }

  ghost predicate Earliest(entries: Entries, victim: string)
  {
    victim in entries && forall k :: k in entries ==> entries[victim].expires <= entries[k].expires
  }

  /** Make room for one more URL: nothing to do, or drop every expired entry, or else one that expires first. */
  ghost predicate MadeRoom(cap: nat, entries: Entries, url: string, scan: int, entries': Entries)
  {
    if url in entries || |entries| < cap then entries' == entries
    else if Unexpired(entries, scan) != entries then entries' == Unexpired(entries, scan)
    else exists victim :: Earliest(entries, victim) && entries' == entries - {victim}
  }

  /** `Set` leaves entries'. Which of several earliest-expiring entries goes is open, as map iteration order is. */
  ghost predicate SetLeads(ttl: int, cap: nat, entries: Entries, url: string, resp: Response,
                           scan: int, stamp: int, entries': Entries)
  {
    exists roomy :: MadeRoom(cap, entries, url, scan, roomy) && entries' == roomy[url := Entry(resp, stamp + ttl)]
  }

  // ---------- against the ideal cache ----------

  /** The other URLs last stored no earlier than url. */
  function NotOlder(memory: Memory, url: string): set<string>
    requires url in memory
  {
    set w | w in memory && w != url && memory[w].at >= memory[url].at
  }

  ghost predicate Agrees(ttl: int, cap: nat, entries: Entries, memory: Memory, clock: int)
  {
    && |entries| <= cap
    && entries.Keys <= memory.Keys
    && (forall u :: u in memory ==> memory[u].at <= clock)
    && (forall u :: u in entries ==> entries[u] == Entry(memory[u].resp, memory[u].at + ttl))
    && (forall u :: u in memory && u !in entries ==>
          memory[u].at + ttl <= clock || |NotOlder(memory, u)| >= cap)
  }

  class Cache {
    var ttl: int
    var maxEntries: int
    var entries: Entries
    ghost var memory: Memory
    ghost var clock: int

    ghost predicate Valid()
      reads this
    {
      ttl > 0 && "" !in entries && Agrees(ttl, Capacity(maxEntries), entries, memory, clock)
    }

    constructor (ttl: int, ghost clock: int)
      ensures Valid()
      ensures this.ttl == (if ttl <= 0 then 300_000_000_000 else ttl)
      ensures entries == map[] && memory == map[] && this.clock == clock && maxEntries == DEFAULT_MAX_ENTRIES
    {
      this.ttl := if ttl <= 0 then 300_000_000_000 else ttl;
      maxEntries := DEFAULT_MAX_ENTRIES;
      entries := map[];
      memory := map[];
      this.clock := clock;
    }

    method Get(url: string, now: int) returns (r: Option<Response>)
      requires Valid() && clock <= now
      modifies this`entries, this`clock
      ensures Valid() && clock == now
      ensures entries == AfterGet(old(entries), url, now)
      ensures r == Lookup(old(entries), url, now)
      // a hit is what was stored last, and it has not expired
      ensures r.Some? ==> url in memory && memory[url].resp == r.value && now < memory[url].at + ttl
      // an unexpired response is missed only when crowded out
      ensures r.None? && url in memory && now < memory[url].at + ttl ==> |NotOlder(memory, url)| >= Capacity(maxEntries)
    {
      GetAgrees(ttl, Capacity(maxEntries), entries, memory, clock, url, now);
      clock := now;
      if url !in entries {
        return None;
      }
      var e := entries[url];
      if !(now < e.expires) {
        entries := entries - {url};
        return None;
      }
      return Some(e.resp);
    }

    method Set(url: string, resp: Response, scan: int, stamp: int)
      requires Valid() && url != "" && clock <= scan <= stamp
      modifies this`entries, this`memory, this`clock
      ensures Valid() && clock == stamp
      ensures SetLeads(ttl, Capacity(maxEntries), old(entries), url, resp, scan, stamp, entries)
      ensures memory == old(memory)[url := Stored(resp, stamp)]
    {
      hide Agrees;
      ghost var before, known := entries, memory;
      var maxCap := maxEntries;
      if maxCap <= 0 {
        maxCap := DEFAULT_MAX_ENTRIES;
      }
      memory := memory[url := Stored(resp, stamp)];
      SetAgrees(ttl, maxCap, before, known, clock, url, resp, scan, stamp);
      clock := stamp;
      if url in entries {
        assert MadeRoom(maxCap, before, url, scan, before);
        entries := entries[url := Entry(resp, stamp + ttl)];
        assert SetLeads(ttl, maxCap, before, url, resp, scan, stamp, entries);
        return;
      }
      if |entries| >= maxCap {
        MakeRoom(scan);
      }
      assert MadeRoom(maxCap, before, url, scan, entries);
      entries := entries[url := Entry(resp, stamp + ttl)];
      assert SetLeads(ttl, maxCap, before, url, resp, scan, stamp, entries);
    }

    /** The single eviction pass of `Set`, over a full map in whatever order it yields its keys. */
    method MakeRoom(scan: int)
      requires "" !in entries && entries != map[]
      modifies this`entries
      ensures "" !in entries
      ensures if Unexpired(old(entries), scan) != old(entries) then entries == Unexpired(old(entries), scan)
              else exists victim :: Earliest(old(entries), victim) && entries == old(entries) - {victim}
    {
      ghost var before := entries;
      var victimKey, victimExpires, purged := "", 0, 0;
      var todo := entries.Keys;
      while todo != {}
        invariant todo <= entries.Keys && purged >= 0
        invariant entries == map k | k in before && (k in todo || scan < before[k].expires) :: before[k]
        invariant purged == 0 <==> entries == before
        invariant victimKey == "" ==> entries.Keys == todo
        invariant victimKey != "" ==>
          victimKey in entries && victimKey !in todo && victimExpires == before[victimKey].expires
        invariant victimKey != "" ==> forall k :: k in entries && k !in todo ==> victimExpires <= before[k].expires
        decreases todo
      {
        var k :| k in todo;
        var e := entries[k];
        assert k in before;
        todo := todo - {k};
        if !(scan < e.expires) {
          entries := entries - {k};
          purged := purged + 1;
          assert k !in entries && k in before;
        } else if victimKey == "" || e.expires < victimExpires {
          victimKey := k;
          victimExpires := e.expires;
        }
      }
      assert entries == Unexpired(before, scan);
      if purged == 0 && victimKey != "" {
        assert Earliest(before, victimKey);
        entries := entries - {victimKey};
      }
    }

    method Flush()
      requires Valid()
      modifies this`entries, this`memory
      ensures Valid() && entries == map[] && memory == map[]
    {
      entries := map[];
      memory := map[];
    }

    method Len() returns (n: nat)
      requires Valid()
      ensures n == |entries| && n <= Capacity(maxEntries)
    {
      n := |entries|;
    }
  }

  lemma GetAgrees(ttl: int, cap: nat, entries: Entries, memory: Memory, clock: int, url: string, now: int)
    requires Agrees(ttl, cap, entries, memory, clock) && clock <= now
    ensures Agrees(ttl, cap, AfterGet(entries, url, now), memory, now)
  {
    var left := AfterGet(entries, url, now);
    SubsetSize(left.Keys, entries.Keys);
  }

  /** Whatever entry makes way, the cache still agrees with an ideal cache that also stores the new response. */
  lemma SetAgrees(ttl: int, cap: nat, entries: Entries, memory: Memory, clock: int,
                  url: string, resp: Response, scan: int, stamp: int)
    requires ttl > 0 && cap > 0
    requires Agrees(ttl, cap, entries, memory, clock) && clock <= scan <= stamp
    ensures forall entries' :: SetLeads(ttl, cap, entries, url, resp, scan, stamp, entries') ==>
              Agrees(ttl, cap, entries', memory[url := Stored(resp, stamp)], stamp)
  {
    forall entries' | SetLeads(ttl, cap, entries, url, resp, scan, stamp, entries')
      ensures Agrees(ttl, cap, entries', memory[url := Stored(resp, stamp)], stamp)
    {
      var roomy :| MadeRoom(cap, entries, url, scan, roomy) && entries' == roomy[url := Entry(resp, stamp + ttl)];
      RoomAgrees(ttl, cap, entries, memory, clock, url, resp, scan, stamp, roomy);
    }
  }

  lemma RoomAgrees(ttl: int, cap: nat, entries: Entries, memory: Memory, clock: int,
                   url: string, resp: Response, scan: int, stamp: int, roomy: Entries)
    requires ttl > 0 && cap > 0
    requires Agrees(ttl, cap, entries, memory, clock) && clock <= scan <= stamp
    requires MadeRoom(cap, entries, url, scan, roomy)
    ensures Agrees(ttl, cap, roomy[url := Entry(resp, stamp + ttl)], memory[url := Stored(resp, stamp)], stamp)
  {
    var memory' := memory[url := Stored(resp, stamp)];
    var entries' := roomy[url := Entry(resp, stamp + ttl)];
    RoomSize(cap, entries, url, scan, roomy);
    assert entries'.Keys == roomy.Keys + {url};
    forall u | u in memory' && u !in entries'
      ensures memory'[u].at + ttl <= stamp || |NotOlder(memory', u)| >= cap
    {
      Crowded(ttl, cap, entries, memory, clock, url, resp, scan, stamp, roomy, u);
    }
    hide NotOlder, MadeRoom;
  }

  lemma Crowded(ttl: int, cap: nat, entries: Entries, memory: Memory, clock: int,
                url: string, resp: Response, scan: int, stamp: int, roomy: Entries, u: string)
    requires ttl > 0 && cap > 0
    requires Agrees(ttl, cap, entries, memory, clock) && clock <= scan <= stamp
    requires MadeRoom(cap, entries, url, scan, roomy)
    requires u in memory && u != url && u !in roomy
    ensures var memory' := memory[url := Stored(resp, stamp)];
            memory'[u].at + ttl <= stamp || |NotOlder(memory', u)| >= cap
  {
    if u !in entries {
      SubsetSize(NotOlder(memory, u), NotOlder(memory[url := Stored(resp, stamp)], u));
    } else if scan < entries[u].expires {
      EvictedIsEarliest(cap, entries, url, scan, roomy, u);
      hide MadeRoom;
      Rivals(ttl, cap, entries, memory, clock, url, resp, stamp, u);
    }
  }

  lemma EvictedIsEarliest(cap: nat, entries: Entries, url: string, scan: int, roomy: Entries, u: string)
    requires MadeRoom(cap, entries, url, scan, roomy)
    requires LiveAt(entries, u, scan) && u !in roomy
    ensures url !in entries && |entries| >= cap && Earliest(entries, u)
  {
  }

  /** The entries an evicted URL leaves behind, and the URL it makes way for, were all stored no earlier. */
  lemma Rivals(ttl: int, cap: nat, entries: Entries, memory: Memory, clock: int,
               url: string, resp: Response, stamp: int, u: string)
    requires Agrees(ttl, cap, entries, memory, clock) && clock <= stamp
    requires url !in entries && |entries| >= cap && Earliest(entries, u)
    ensures |NotOlder(memory[url := Stored(resp, stamp)], u)| >= cap
  {
    var rivals := (entries.Keys - {u}) + {url};
    assert |rivals| == |entries|;
    SubsetSize(rivals, NotOlder(memory[url := Stored(resp, stamp)], u));
  }

  lemma RoomSize(cap: nat, entries: Entries, url: string, scan: int, roomy: Entries)
    requires cap > 0 && |entries| <= cap && MadeRoom(cap, entries, url, scan, roomy)
    ensures roomy.Keys <= entries.Keys && (forall k :: k in roomy ==> roomy[k] == entries[k])
    ensures |roomy.Keys + {url}| <= cap
  {
    if url in entries {
      assert roomy.Keys + {url} == entries.Keys;
    } else if |entries| >= cap {
      var gone :| gone in entries && gone !in roomy;
      SubsetSize(roomy.Keys, entries.Keys - {gone});
    }
  }

  // ---------- whole runs ----------

  datatype Op = Get(url: string, now: int) | Set(url: string, resp: Response, scan: int, stamp: int) | Flush

  /** The ideal cache as a function of the calls alone: the last Set of each URL since the last Flush. */
  function Remembered(ops: seq<Op>): Memory
  {
    if ops == [] then map[] else
    var memory := Remembered(ops[..|ops| - 1]);
    match ops[|ops| - 1]
    case Get(_, _) => memory
    case Set(url, resp, _, stamp) => memory[url := Stored(resp, stamp)]
    case Flush => map[]
  }

  ghost predicate Leads(ttl: int, cap: nat, entries: Entries, op: Op, entries': Entries)
  {
    match op
    case Get(url, now) => entries' == AfterGet(entries, url, now)
    case Set(url, resp, scan, stamp) => SetLeads(ttl, cap, entries, url, resp, scan, stamp, entries')
    case Flush => entries' == map[]
  }

  function Clock(ops: seq<Op>, start: int): int
  {
    if ops == [] then start else
    match ops[|ops| - 1]
    case Get(_, now) => now
    case Set(_, _, _, stamp) => stamp
    case Flush => Clock(ops[..|ops| - 1], start)
  }

  ghost predicate InOrder(op: Op, clock: int)
  {
    match op
    case Get(_, now) => clock <= now
    case Set(_, _, scan, stamp) => clock <= scan <= stamp
    case Flush => true
  }

  /** states[i] is what the first i calls left of an initially empty cache. */
  ghost predicate History(ttl: int, cap: nat, ops: seq<Op>, states: seq<Entries>, start: int)
  {
    && ttl > 0 && cap > 0
    && |states| == |ops| + 1 && states[0] == map[]
    && (forall i :: 0 <= i < |ops| ==> InOrder(ops[i], Clock(ops[..i], start)))
    && forall i :: 0 <= i < |ops| ==> Leads(ttl, cap, states[i], ops[i], states[i + 1])
  }

  lemma {:induction false} HistoryAgrees(ttl: int, cap: nat, ops: seq<Op>, states: seq<Entries>, start: int, i: nat)
    requires History(ttl, cap, ops, states, start) && i <= |ops|
    ensures Agrees(ttl, cap, states[i], Remembered(ops[..i]), Clock(ops[..i], start))
  {
    if i > 0 {
      HistoryAgrees(ttl, cap, ops, states, start, i - 1);
      assert ops[..i][..i - 1] == ops[..i - 1];
      assert Leads(ttl, cap, states[i - 1], ops[i - 1], states[i]);
      assert InOrder(ops[i - 1], Clock(ops[..i - 1], start));
      var memory, clock := Remembered(ops[..i - 1]), Clock(ops[..i - 1], start);
      match ops[i - 1]
      case Get(url, now) => GetAgrees(ttl, cap, states[i - 1], memory, clock, url, now);
      case Set(url, resp, scan, stamp) => SetAgrees(ttl, cap, states[i - 1], memory, clock, url, resp, scan, stamp);
      case Flush =>
    }
  }

  /**
    What a lookup may answer at any point of any run, told by the earlier calls alone:
    the last unexpired response stored for the URL, or nothing; and nothing in spite of such
    a response only if at least cap other URLs were last stored no earlier than it.
   */
  lemma LookupsAreFaithful(ttl: int, cap: nat, ops: seq<Op>, states: seq<Entries>, start: int, i: nat)
    requires History(ttl, cap, ops, states, start)
    requires i < |ops| && ops[i].Get?
    ensures var url, now, memory := ops[i].url, ops[i].now, Remembered(ops[..i]);
            var r := Lookup(states[i], url, now);
            && |states[i]| <= cap
            && (r.Some? ==> url in memory && memory[url].resp == r.value && now < memory[url].at + ttl)
            && (r.None? && url in memory && now < memory[url].at + ttl ==> |NotOlder(memory, url)| >= cap)
  {
    HistoryAgrees(ttl, cap, ops, states, start, i);
    assert InOrder(ops[i], Clock(ops[..i], start));
  }
}
