/** The upstream connection pool as values: what each operation does to lists and counters. */
module Pool {
  import opened Basics

  datatype Addr = Addr(ip: nat, port: nat)
  type Stream = nat

  datatype Config = Config(enabled: bool, maxIdlePerDest: nat, maxTotalIdle: nat, idleTimeout: nat)

  datatype Conn = Conn(stream: Stream, createdAt: nat, lastUsed: nat)

  /** The counters kept both globally and per destination. */
  datatype Counters = Counters(created: int, reused: int, hits: int, misses: int,
                               drops: int, expired: int, evicted: int, inUse: int)

  datatype Hint = Reuse | Refresh

  datatype Pool = Pool(config: Config, idle: map<Addr, seq<Conn>>, totalIdle: int,
                       metrics: Counters, dest: map<Addr, Counters>, active: map<Addr, nat>)

  const ZERO := Counters(0, 0, 0, 0, 0, 0, 0, 0)

  function Plus(a: Counters, b: Counters): Counters
  {
    Counters(a.created + b.created, a.reused + b.reused, a.hits + b.hits, a.misses + b.misses,
             a.drops + b.drops, a.expired + b.expired, a.evicted + b.evicted, a.inUse + b.inUse)
  }

  function New(c: Config): Pool { Pool(c, map[], 0, ZERO, map[], map[]) }

  function IdleOf(p: Pool, a: Addr): seq<Conn> { if a in p.idle then p.idle[a] else [] }

  function DestOf(p: Pool, a: Addr): Counters { if a in p.dest then p.dest[a] else ZERO }

  function ActiveOf(p: Pool, a: Addr): nat { if a in p.active then p.active[a] else 0 }

  predicate IsExpired(c: Conn, now: nat, timeout: nat) { now > c.lastUsed && now - c.lastUsed > timeout }

  /** A destination never keeps an empty list. */
  function WithList(idle: map<Addr, seq<Conn>>, a: Addr, list: seq<Conn>): map<Addr, seq<Conn>>
  {
    if list == [] then idle - {a} else idle[a := list]
  }

  /** Count something both globally and for one destination. */
  function Counted(p: Pool, a: Addr, d: Counters): Pool
  {
    p.(metrics := Plus(p.metrics, d), dest := p.dest[a := Plus(DestOf(p, a), d)])
  }

  // ----- taking a stream out -----

  datatype Popped = Popped(rest: seq<Conn>, expired: nat, stream: Option<Stream>)

  /** Pop from the newest end until an unexpired connection turns up. */
  function PopFresh(list: seq<Conn>, now: nat, timeout: nat): Popped
  {
    if list == [] then Popped([], 0, None)
    else
      var init, last := list[..|list| - 1], list[|list| - 1];
      if IsExpired(last, now, timeout) then
        var r := PopFresh(init, now, timeout);
        r.(expired := r.expired + 1)
      else Popped(init, 0, Some(last.stream))
  }

  function RecordExpired(p: Pool, a: Addr, count: nat): Pool
  {
    if count == 0 then p
    else Counted(p, a, ZERO.(expired := count)).(totalIdle := p.totalIdle - count)
  }

  function TakeIdle(p: Pool, a: Addr, now: nat): (Pool, Option<Stream>)
  {
    if a !in p.idle then (p, None)
    else
      var r := PopFresh(p.idle[a], now, p.config.idleTimeout);
      var q := p.(idle := WithList(p.idle, a, r.rest),
                  totalIdle := if r.stream.Some? then p.totalIdle - 1 else p.totalIdle);
      (RecordExpired(q, a, r.expired), r.stream)
  }

  function Activate(p: Pool, a: Addr): Pool { p.(active := p.active[a := ActiveOf(p, a) + 1]) }

  function Deactivate(p: Pool, a: Addr): Pool
  {
    if a !in p.active then p
    else if p.active[a] <= 1 then p.(active := p.active - {a})
    else p.(active := p.active[a := p.active[a] - 1])
  }

  /** A get: an idle stream if there is one, else a new connection, which `connected` gives or refuses. */
  function Get(p: Pool, a: Addr, now: nat, connected: Option<Stream>): (Pool, Option<Stream>)
  {
    if !p.config.enabled then (p, connected)
    else
      var (q, found) := TakeIdle(p, a, now);
      if found.Some? then
        (Activate(Counted(q, a, ZERO.(hits := 1, reused := 1, inUse := 1)), a), found)
      else
        var missed := Counted(q, a, ZERO.(misses := 1));
        if connected.Some? then
          (Activate(Counted(missed, a, ZERO.(created := 1, inUse := 1)), a), connected)
        else (missed, None)
  }

  // ----- putting a stream back -----

  predicate Full(p: Pool, a: Addr) { a in p.idle && |p.idle[a]| >= p.config.maxIdlePerDest }

  predicate Crowded(p: Pool) { p.totalIdle >= p.config.maxTotalIdle }

  predicate IsOldestHead(p: Pool, v: Addr)
  {
    && v in p.idle && p.idle[v] != []
    && forall b :: b in p.idle && p.idle[b] != [] ==> p.idle[v][0].createdAt <= p.idle[b][0].createdAt
  }

  predicate NoHeads(p: Pool) { forall b :: b in p.idle ==> p.idle[b] == [] }

  /** Which destinations may lose a stream when one is inserted for `a`; the iteration order of the map decides ties. */
  predicate MayEvict(p: Pool, a: Addr, victim: Option<Addr>)
  {
    match victim
    case None => Full(p, a) || !Crowded(p) || NoHeads(p)
    case Some(v) => !Full(p, a) && Crowded(p) && IsOldestHead(p, v)
  }

  function DropHead(p: Pool, v: Addr): Pool
  {
    if IdleOf(p, v) == [] then p else p.(idle := WithList(p.idle, v, p.idle[v][1..]))
  }

  function Push(p: Pool, a: Addr, c: Conn): Pool
  {
    p.(idle := p.idle[a := IdleOf(p, a) + [c]], totalIdle := p.totalIdle + 1)
  }

  function Insert(p: Pool, a: Addr, stream: Stream, now: nat, victim: Option<Addr>): Pool
  {
    if Full(p, a) then p
    else Push(if victim.Some? then DropHead(p, victim.value) else p, a, Conn(stream, now, now))
  }

  function RecordEvicted(p: Pool, victim: Option<Addr>): Pool
  {
    match victim
    case None => p
    case Some(v) => Counted(p, v, ZERO.(evicted := 1)).(totalIdle := p.totalIdle - 1)
  }

  /** A stream stops being in use. */
  function Returned(p: Pool, a: Addr): Pool
  {
    p.(metrics := p.metrics.(inUse := SaturatingPred(p.metrics.inUse)),
       dest := p.dest[a := DestOf(p, a).(inUse := SaturatingPred(DestOf(p, a).inUse))])
  }

  /** Insert, with the drop or the eviction it causes put on the books. */
  function Store(p: Pool, a: Addr, stream: Stream, now: nat, victim: Option<Addr>): Pool
  {
    var q := Insert(p, a, stream, now, victim);
    RecordEvicted(if Full(p, a) then Counted(q, a, ZERO.(drops := 1)) else q, victim)
  }

  function Put(p: Pool, a: Addr, stream: Stream, hint: Hint, now: nat, victim: Option<Addr>): Pool
  {
    if !p.config.enabled then p
    else
      match hint
      case Reuse => Deactivate(Store(Returned(p, a), a, stream, now, victim), a)
      case Refresh => Deactivate(Returned(p, a), a)
  }

  function Release(p: Pool, a: Addr): Pool
  {
    if !p.config.enabled then p else Deactivate(Returned(p, a), a)
  }

  /** The background task behind a refresh: connect and store. */
  function RefreshConnection(p: Pool, a: Addr, connected: Option<Stream>, now: nat, victim: Option<Addr>): Pool
  {
    match connected
    case None => p
    case Some(s) => Store(Counted(p, a, ZERO.(created := 1)), a, s, now, victim)
  }

  // ----- expiry -----

  function Fresh(list: seq<Conn>, now: nat, timeout: nat): seq<Conn>
  {
    if list == [] then []
    else
      var rest := Fresh(list[1..], now, timeout);
      if IsExpired(list[0], now, timeout) then rest else [list[0]] + rest
  }

  lemma FreshIsNoLonger(list: seq<Conn>, now: nat, timeout: nat)
    ensures |Fresh(list, now, timeout)| <= |list|
  {}

  /** What the cleanup does to one destination. */
  function Clean(p: Pool, a: Addr, now: nat): Pool
  {
    var list := IdleOf(p, a);
    var kept := Fresh(list, now, p.config.idleTimeout);
    FreshIsNoLonger(list, now, p.config.idleTimeout);
    RecordExpired(p.(idle := WithList(p.idle, a, kept)), a, |list| - |kept|)
  }

  /** A cleanup visits destinations one after the other. */
  function CleanEach(p: Pool, order: seq<Addr>, now: nat): Pool
  {
    if order == [] then p else Clean(CleanEach(p, order[..|order| - 1], now), order[|order| - 1], now)
  }

  // ----- sorted lists -----

  /** Oldest first, never touched since they were stored, none from the future. */
  ghost predicate Ordered(list: seq<Conn>, now: nat)
  {
    && (forall i :: 0 <= i < |list| ==> list[i].lastUsed == list[i].createdAt <= now)
    && (forall i, j :: 0 <= i <= j < |list| ==> list[i].createdAt <= list[j].createdAt)
  }

  /**
   * On an ordered list a pop hands out the newest stream and touches nothing else, or finds it
   * expired and then drains the whole list as expired.
   */
  lemma {:induction false} PopTakesNewestOrDrains(list: seq<Conn>, now: nat, timeout: nat)
    requires Ordered(list, now) && list != []
    ensures var r := PopFresh(list, now, timeout);
      var newest := list[|list| - 1];
      if IsExpired(newest, now, timeout) then r == Popped([], |list|, None)
      else r == Popped(list[..|list| - 1], 0, Some(newest.stream))
    decreases |list|
  {
    var init, last := list[..|list| - 1], list[|list| - 1];
    if IsExpired(last, now, timeout) && init != [] {
      assert init[|init| - 1] == list[|list| - 2];
      PopTakesNewestOrDrains(init, now, timeout);
    }
  }

  lemma {:induction false} NothingToClean(list: seq<Conn>, now: nat, timeout: nat)
    requires forall i :: 0 <= i < |list| ==> !IsExpired(list[i], now, timeout)
    ensures Fresh(list, now, timeout) == list
    decreases |list|
  {
    if list != [] { NothingToClean(list[1..], now, timeout); }
  }

  /** On an ordered list the cleanup keeps a suffix, and exactly the unexpired streams. */
  lemma {:induction false} CleanKeepsASuffix(list: seq<Conn>, now: nat, timeout: nat)
    requires Ordered(list, now)
    ensures var kept := Fresh(list, now, timeout);
      && |kept| <= |list| && kept == list[|list| - |kept|..]
      && (forall i :: 0 <= i < |list| - |kept| ==> IsExpired(list[i], now, timeout))
      && (forall i :: |list| - |kept| <= i < |list| ==> !IsExpired(list[i], now, timeout))
    decreases |list|
  {
    if list == [] {
    } else if IsExpired(list[0], now, timeout) {
      var rest := list[1..];
      CleanKeepsASuffix(rest, now, timeout);
      var kept := Fresh(rest, now, timeout);
      assert Fresh(list, now, timeout) == kept;
      assert rest[|rest| - |kept|..] == list[|list| - |kept|..];
      forall i | 0 <= i < |list| ensures IsExpired(list[i], now, timeout) <==> i < |list| - |kept| {
        if i > 0 { assert list[i] == rest[i - 1]; }
      }
    } else {
      NothingToClean(list, now, timeout);
    }
  }
}
