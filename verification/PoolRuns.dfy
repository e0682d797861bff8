/**
 * Every run of the pool. A world is a pool, the clock, the streams its clients hold and, per
 * destination, how many streams were thrown away on return. An operation that nobody could perform
 * (returning a stream that is not held, evicting a stream that is not the oldest) changes nothing.
 */
module PoolRuns {
  import opened Basics
  import opened Tally
  import opened Pool

  datatype World = World(pool: Pool, clock: nat, held: map<Stream, Addr>, discarded: map<Addr, int>, unused: Stream)

  datatype Op =
    | Tick(nanos: nat)
    | DoGet(addr: Addr, connects: bool)
    | DoPut(stream: Stream, hint: Hint, victim: Option<Addr>)
    | DoRelease(stream: Stream)
    | DoRefresh(addr: Addr, connects: bool, victim: Option<Addr>)
    | DoClean(addr: Addr)

  function Begin(c: Config): World { World(New(c), 0, map[], map[], 0) }

  function DiscardedOf(w: World, a: Addr): int { if a in w.discarded then w.discarded[a] else 0 }

  function Discard(w: World, s: Stream): World
    requires s in w.held
  {
    var a := w.held[s];
    w.(held := w.held - {s}, discarded := w.discarded[a := DiscardedOf(w, a) + 1])
  }

  function Connection(w: World, connects: bool): Option<Stream> { if connects then Some(w.unused) else None }

  function Next(w: World, op: Op): World
  {
    if op.Tick? then w.(clock := w.clock + op.nanos)
    else if !w.pool.config.enabled then w
    else match op
      case DoGet(a, connects) =>
        var (p, got) := Get(w.pool, a, w.clock, Connection(w, connects));
        w.(pool := p,
           held := if got.Some? then w.held[got.value := a] else w.held,
           unused := if connects then w.unused + 1 else w.unused)
      case DoPut(s, hint, victim) =>
        if s !in w.held then w
        else
          var a := w.held[s];
          if hint.Refresh? then Discard(w, s).(pool := Put(w.pool, a, s, hint, w.clock, victim))
          else if MayEvict(w.pool, a, victim)
          then w.(pool := Put(w.pool, a, s, hint, w.clock, victim), held := w.held - {s})
          else w
      case DoRelease(s) =>
        if s !in w.held then w else Discard(w, s).(pool := Release(w.pool, w.held[s]))
      case DoRefresh(a, connects, victim) =>
        if connects && MayEvict(w.pool, a, victim)
        then w.(pool := RefreshConnection(w.pool, a, Connection(w, connects), w.clock, victim), unused := w.unused + 1)
        else w
      case DoClean(a) => w.(pool := Clean(w.pool, a, w.clock))
  }

  function Run(w: World, ops: seq<Op>): World
    decreases |ops|
  {
    if ops == [] then w else Run(Next(w, ops[0]), ops[1..])
  }

  // ----- the invariant, in six parts -----

  ghost predicate ListsOk(p: Pool, now: nat)
  {
    forall a :: a in p.idle ==>
      p.idle[a] != [] && |p.idle[a]| <= Max(1, p.config.maxIdlePerDest) && Ordered(p.idle[a], now)
  }

  ghost function Length(list: seq<Conn>): int { |list| }

  ghost predicate TotalOk(p: Pool)
  {
    p.totalIdle == Total(p.idle, Length) <= Max(1, p.config.maxTotalIdle)
  }

  ghost function CreatedIn(c: Counters): int { c.created }
  ghost function ReusedIn(c: Counters): int { c.reused }
  ghost function HitsIn(c: Counters): int { c.hits }
  ghost function MissesIn(c: Counters): int { c.misses }
  ghost function DropsIn(c: Counters): int { c.drops }
  ghost function ExpiredIn(c: Counters): int { c.expired }
  ghost function EvictedIn(c: Counters): int { c.evicted }
  ghost function InUseIn(c: Counters): int { c.inUse }

  /** Field by field, the sum of the destinations' counters. */
  ghost function SumOf(dest: map<Addr, Counters>): Counters
  {
    Counters(Total(dest, CreatedIn), Total(dest, ReusedIn), Total(dest, HitsIn), Total(dest, MissesIn),
             Total(dest, DropsIn), Total(dest, ExpiredIn), Total(dest, EvictedIn), Total(dest, InUseIn))
  }

  ghost predicate CountersOk(p: Pool) { p.metrics == SumOf(p.dest) }

  /** Streams created that are neither in use nor gone in one of the ways that are counted. */
  function Left(c: Counters): int
  {
    c.created - (c.inUse + c.drops + c.expired + c.evicted)
  }

  /** Of these, the ones that are not idle either. */
  function Gap(c: Counters, idle: int): int { Left(c) - idle }

  function GapAt(p: Pool, a: Addr): int { Gap(DestOf(p, a), |IdleOf(p, a)|) }

  function GapOverall(p: Pool): int { Gap(p.metrics, p.totalIdle) }

  ghost predicate BooksOk(w: World)
  {
    && (forall a :: GapAt(w.pool, a) == DiscardedOf(w, a))
    && GapOverall(w.pool) == Total(w.discarded, Itself)
  }

  ghost function HeldAt(a: Addr): Addr -> int { (b: Addr) => if a == b then 1 else 0 }

  ghost function One(b: Addr): int { 1 }

  ghost predicate HeldOk(w: World)
  {
    && (forall a :: DestOf(w.pool, a).inUse == ActiveOf(w.pool, a) == Total(w.held, HeldAt(a)))
    && (forall a :: a in w.pool.active ==> w.pool.active[a] >= 1)
    && w.pool.metrics.inUse == Total(w.held, One)
  }

  ghost predicate Distinct(idle: map<Addr, seq<Conn>>)
  {
    forall a, i, b, j ::
      a in idle && b in idle && 0 <= i < |idle[a]| && 0 <= j < |idle[b]| && idle[a][i].stream == idle[b][j].stream
      ==> a == b && i == j
  }

  /** Streams are idle once at most, and none is both idle and held. */
  ghost predicate StreamsOk(w: World)
  {
    && Distinct(w.pool.idle)
    && (forall a, i :: a in w.pool.idle && 0 <= i < |w.pool.idle[a]| ==>
          w.pool.idle[a][i].stream < w.unused && w.pool.idle[a][i].stream !in w.held)
    && (forall s :: s in w.held ==> s < w.unused)
  }

  ghost predicate Inv(w: World)
  {
    && ListsOk(w.pool, w.clock) && TotalOk(w.pool) && CountersOk(w.pool)
    && BooksOk(w) && HeldOk(w) && StreamsOk(w)
  }

  // ----- lists -----

  lemma WithListTotal(idle: map<Addr, seq<Conn>>, a: Addr, list: seq<Conn>)
    ensures Total(WithList(idle, a, list), Length)
         == Total(idle, Length) + |list| - (if a in idle then |idle[a]| else 0)
  {
    if list != [] {
      TotalUpdate(idle, a, list, Length);
    } else if a in idle {
      TotalRemove(idle, a, Length);
    } else {
      assert idle - {a} == idle;
    }
  }

  lemma SliceIsOrdered(list: seq<Conn>, now: nat, lo: nat, hi: nat)
    requires Ordered(list, now) && lo <= hi <= |list|
    ensures Ordered(list[lo..hi], now)
  {}

  lemma AppendIsOrdered(list: seq<Conn>, now: nat, s: Stream)
    requires Ordered(list, now)
    ensures Ordered(list + [Conn(s, now, now)], now)
  {}

  /** What remains of one destination's list after a pop, an eviction or a cleanup is a slice of it. */
  ghost predicate ShrunkTo(idle: map<Addr, seq<Conn>>, idle': map<Addr, seq<Conn>>, a: Addr, lo: nat, hi: nat)
  {
    a in idle && lo <= hi <= |idle[a]| && idle' == WithList(idle, a, idle[a][lo..hi])
  }

  lemma ShrinkKeepsLists(p: Pool, p': Pool, now: nat, a: Addr, lo: nat, hi: nat)
    requires ListsOk(p, now) && p'.config == p.config && ShrunkTo(p.idle, p'.idle, a, lo, hi)
    ensures ListsOk(p', now)
  {
    SliceIsOrdered(p.idle[a], now, lo, hi);
  }

  lemma ShrinkKeepsStreams(w: World, w': World, a: Addr, lo: nat, hi: nat)
    requires StreamsOk(w) && ShrunkTo(w.pool.idle, w'.pool.idle, a, lo, hi)
    requires w'.held == w.held && w'.unused == w.unused
    ensures StreamsOk(w')
  {
    var idle: map<Addr, seq<Conn>>, idle': map<Addr, seq<Conn>> := w.pool.idle, w'.pool.idle;
    forall b, i | b in idle' && 0 <= i < |idle'[b]|
      ensures b in idle && (b == a ==> idle'[b][i] == idle[b][lo + i]) && (b != a ==> idle'[b] == idle[b]) {}
    forall b, i, c, j | b in idle' && c in idle' && 0 <= i < |idle'[b]| && 0 <= j < |idle'[c]|
                        && idle'[b][i].stream == idle'[c][j].stream
      ensures b == c && i == j
    {
      var bi := if b == a then lo + i else i;
      var cj := if c == a then lo + j else j;
      assert idle[b][bi].stream == idle[c][cj].stream;
    }
  }

  // ----- taking from the pool -----

  /** The three things TakeIdle can do, on a sound pool. */
  lemma TakeIdleCases(p: Pool, a: Addr, now: nat)
    requires ListsOk(p, now)
    ensures var (q, found) := TakeIdle(p, a, now);
      && q.config == p.config && q.active == p.active
      && (a !in p.idle ==> q == p && found.None?)
      && (a in p.idle ==>
            var list := p.idle[a];
            var newest := list[|list| - 1];
            if IsExpired(newest, now, p.config.idleTimeout) then
              && found.None? && ShrunkTo(p.idle, q.idle, a, 0, 0)
              && q == RecordExpired(p.(idle := WithList(p.idle, a, [])), a, |list|)
            else
              && found == Some(newest.stream) && ShrunkTo(p.idle, q.idle, a, 0, |list| - 1)
              && q == p.(idle := WithList(p.idle, a, list[..|list| - 1]), totalIdle := p.totalIdle - 1))
  {
    if a in p.idle {
      PopTakesNewestOrDrains(p.idle[a], now, p.config.idleTimeout);
      assert p.idle[a][0..0] == [];
      assert p.idle[a][0..|p.idle[a]| - 1] == p.idle[a][..|p.idle[a]| - 1];
    }
  }

  lemma CountedKeeps(p: Pool, a: Addr, d: Counters)
    requires CountersOk(p)
    ensures CountersOk(Counted(p, a, d))
  {
    var c := Plus(DestOf(p, a), d);
    TotalUpdate(p.dest, a, c, CreatedIn);
    TotalUpdate(p.dest, a, c, ReusedIn);
    TotalUpdate(p.dest, a, c, HitsIn);
    TotalUpdate(p.dest, a, c, MissesIn);
    TotalUpdate(p.dest, a, c, DropsIn);
    TotalUpdate(p.dest, a, c, ExpiredIn);
    TotalUpdate(p.dest, a, c, EvictedIn);
    TotalUpdate(p.dest, a, c, InUseIn);
  }

  /** Only these two fields matter to the counters. */
  lemma CountersFrame(p: Pool, q: Pool)
    requires CountersOk(p) && q.metrics == p.metrics && q.dest == p.dest
    ensures CountersOk(q)
  {}

  lemma RecordExpiredKeeps(p: Pool, a: Addr, n: nat)
    requires CountersOk(p)
    ensures CountersOk(RecordExpired(p, a, n))
  {
    CountedKeeps(p, a, ZERO.(expired := n));
  }

  lemma TakeIdleKeepsCounters(p: Pool, a: Addr, now: nat)
    requires CountersOk(p)
    ensures CountersOk(TakeIdle(p, a, now).0)
  {
    if a in p.idle {
      var r := PopFresh(p.idle[a], now, p.config.idleTimeout);
      var q := p.(idle := WithList(p.idle, a, r.rest),
                  totalIdle := if r.stream.Some? then p.totalIdle - 1 else p.totalIdle);
      RecordExpiredKeeps(q, a, r.expired);
    }
  }

  lemma GetKeepsCounters(p: Pool, a: Addr, now: nat, connected: Option<Stream>)
    requires CountersOk(p)
    ensures CountersOk(Get(p, a, now, connected).0)
  {
    hide CountersOk, Counted, TakeIdle;
    var (q, found) := TakeIdle(p, a, now);
    TakeIdleKeepsCounters(p, a, now);
    if found.Some? {
      var c := Counted(q, a, ZERO.(hits := 1, reused := 1, inUse := 1));
      CountedKeeps(q, a, ZERO.(hits := 1, reused := 1, inUse := 1));
      CountersFrame(c, Activate(c, a));
    } else {
      var missed := Counted(q, a, ZERO.(misses := 1));
      CountedKeeps(q, a, ZERO.(misses := 1));
      CountedKeeps(missed, a, ZERO.(created := 1, inUse := 1));
      var c := Counted(missed, a, ZERO.(created := 1, inUse := 1));
      CountersFrame(c, Activate(c, a));
    }
  }

  /** The lists, and how many streams they lost, after a get. */
  lemma GetOnLists(p: Pool, a: Addr, now: nat, connected: Option<Stream>)
    requires ListsOk(p, now) && TotalOk(p)
    ensures var q := Get(p, a, now, connected).0;
      ListsOk(q, now) && TotalOk(q) && q.config == p.config
  {
    hide Total, Ordered, TakeIdle, Plus, DestOf, PopFresh;
    TakeIdleCases(p, a, now);
    var (t, found) := TakeIdle(p, a, now);
    if a in p.idle {
      var list := p.idle[a];
      if found.Some? {
        ShrinkKeepsLists(p, t, now, a, 0, |list| - 1);
        WithListTotal(p.idle, a, list[..|list| - 1]);
      } else {
        ShrinkKeepsLists(p, t, now, a, 0, 0);
        WithListTotal(p.idle, a, []);
      }
    }
  }

  lemma PlusAdds(a: Counters, b: Counters)
    ensures Left(Plus(a, b)) == Left(a) + Left(b) && Plus(a, b).inUse == a.inUse + b.inUse
  {}

  /** What each counted event means for the gap between the books and the idle lists. */
  lemma ExpiryGap(n: int)
    ensures Gap(ZERO.(expired := n), 0) == -n
  {}

  lemma EvictionGap()
    ensures Gap(ZERO.(evicted := 1), 0) == -1
  {}

  lemma MissGap()
    ensures Gap(ZERO.(misses := 1), 0) == 0
  {}

  lemma HitGap()
    ensures Gap(ZERO.(hits := 1, reused := 1, inUse := 1), 0) == -1
  {}

  lemma ConnectGap()
    ensures Gap(ZERO.(created := 1, inUse := 1), 0) == 0
  {}

  /** What counting does to the two gaps and to the streams in use. */
  lemma CountedEffect(p: Pool, a: Addr, d: Counters)
    ensures var q := Counted(p, a, d);
      && (forall x :: GapAt(q, x) == GapAt(p, x) + if x == a then Gap(d, 0) else 0)
      && GapOverall(q) == GapOverall(p) + Gap(d, 0)
      && (forall x :: DestOf(q, x).inUse == DestOf(p, x).inUse + if x == a then d.inUse else 0)
      && q.metrics.inUse == p.metrics.inUse + d.inUse
      && q.idle == p.idle && q.totalIdle == p.totalIdle && q.active == p.active && q.config == p.config
  {
    hide Left, Plus;
    PlusAdds(p.metrics, d);
    PlusAdds(DestOf(p, a), d);
  }

  /** The effect of an operation: how many streams it took out of circulation at `a`, and how many it put in use. */
  ghost predicate Effect(p: Pool, q: Pool, a: Addr, gap: int, used: int)
  {
    && q.config == p.config
    && (forall x :: GapAt(q, x) == GapAt(p, x) + if x == a then gap else 0)
    && GapOverall(q) == GapOverall(p) + gap
    && (forall x :: DestOf(q, x).inUse == DestOf(p, x).inUse + if x == a then used else 0)
    && q.metrics.inUse == p.metrics.inUse + used
  }

  lemma CountedIsEffect(p: Pool, q: Pool, a: Addr, d: Counters, gap: int, used: int)
    requires Effect(p, q, a, gap, used)
    ensures Effect(p, Counted(q, a, d), a, gap + Gap(d, 0), used + d.inUse)
  {
    hide GapAt, GapOverall, Counted;
    CountedEffect(q, a, d);
  }

  lemma SetListEffect(p: Pool, a: Addr, list: seq<Conn>, total: int)
    ensures var q := p.(idle := WithList(p.idle, a, list), totalIdle := total);
      && (forall x :: GapAt(q, x) == GapAt(p, x) + if x == a then |IdleOf(p, a)| - |list| else 0)
      && GapOverall(q) == GapOverall(p) + p.totalIdle - total
      && (forall x :: DestOf(q, x) == DestOf(p, x))
  {
    hide Left;
  }

  lemma RecordExpiredEffect(p: Pool, a: Addr, n: nat)
    ensures var q := RecordExpired(p, a, n);
      && (forall x :: GapAt(q, x) == GapAt(p, x) - if x == a then n else 0)
      && GapOverall(q) == GapOverall(p)
      && (forall x :: DestOf(q, x).inUse == DestOf(p, x).inUse)
      && q.metrics.inUse == p.metrics.inUse && q.config == p.config
  {
    ExpiryGap(n);
    hide Left, Counted;
    if n > 0 { CountedEffect(p, a, ZERO.(expired := n)); }
  }

  lemma TakeIdleEffect(p: Pool, a: Addr, now: nat)
    requires ListsOk(p, now)
    ensures var (q, found) := TakeIdle(p, a, now);
      Effect(p, q, a, if found.Some? then 1 else 0, 0)
  {
    hide GapAt, GapOverall, ListsOk, RecordExpired, Counted;
    TakeIdleCases(p, a, now);
    if a in p.idle {
      var list := p.idle[a];
      var (q, found) := TakeIdle(p, a, now);
      if found.Some? {
        SetListEffect(p, a, list[..|list| - 1], p.totalIdle - 1);
      } else {
        SetListEffect(p, a, [], p.totalIdle);
        RecordExpiredEffect(p.(idle := WithList(p.idle, a, [])), a, |list|);
      }
    }
  }

  lemma ActivateEffect(p: Pool, q: Pool, a: Addr, gap: int, used: int)
    requires Effect(p, q, a, gap, used)
    ensures Effect(p, Activate(q, a), a, gap, used)
  {
    hide Left;
  }

  lemma GetEffect(p: Pool, a: Addr, now: nat, connected: Option<Stream>)
    requires ListsOk(p, now) && p.config.enabled
    ensures var (q, got) := Get(p, a, now, connected);
      Effect(p, q, a, 0, if got.Some? then 1 else 0)
  {
    hide Effect, ListsOk, TakeIdle, Counted, Gap, Activate;
    TakeIdleEffect(p, a, now);
    MissGap();
    HitGap();
    ConnectGap();
    var (t, found) := TakeIdle(p, a, now);
    if found.Some? {
      var d := ZERO.(hits := 1, reused := 1, inUse := 1);
      CountedIsEffect(p, t, a, d, 1, 0);
      ActivateEffect(p, Counted(t, a, d), a, 0, 1);
    } else {
      var missed := Counted(t, a, ZERO.(misses := 1));
      CountedIsEffect(p, t, a, ZERO.(misses := 1), 0, 0);
      if connected.Some? {
        var d := ZERO.(created := 1, inUse := 1);
        CountedIsEffect(p, missed, a, d, 0, 0);
        ActivateEffect(p, Counted(missed, a, d), a, 0, 1);
      }
    }
  }

  lemma GetKeepsBooks(w: World, a: Addr, connects: bool)
    requires BooksOk(w) && ListsOk(w.pool, w.clock) && w.pool.config.enabled
    ensures BooksOk(Next(w, DoGet(a, connects)))
  {
    hide ListsOk, GapAt, GapOverall, Get;
    GetEffect(w.pool, a, w.clock, Connection(w, connects));
  }

  /** A get hands out a stream nobody holds, and counts it as active. */
  lemma GetHandsOut(w: World, a: Addr, connects: bool)
    requires StreamsOk(w) && ListsOk(w.pool, w.clock) && w.pool.config.enabled
    ensures var (q, got) := Get(w.pool, a, w.clock, Connection(w, connects));
      && (got.Some? ==> got.value !in w.held)
      && q.active == if got.Some? then w.pool.active[a := ActiveOf(w.pool, a) + 1] else w.pool.active
  {
    hide Ordered, PopFresh, Distinct, TakeIdle, Plus;
    TakeIdleCases(w.pool, a, w.clock);
  }

  lemma HeldGrows(held: map<Stream, Addr>, s: Stream, a: Addr)
    requires s !in held
    ensures forall b :: Total(held[s := a], HeldAt(b)) == Total(held, HeldAt(b)) + if a == b then 1 else 0
    ensures Total(held[s := a], One) == Total(held, One) + 1
  {
    forall b ensures Total(held[s := a], HeldAt(b)) == Total(held, HeldAt(b)) + if a == b then 1 else 0 {
      TotalUpdate(held, s, a, HeldAt(b));
    }
    TotalUpdate(held, s, a, One);
  }

  lemma GetKeepsHeld(w: World, a: Addr, connects: bool)
    requires HeldOk(w) && StreamsOk(w) && ListsOk(w.pool, w.clock) && w.pool.config.enabled
    ensures HeldOk(Next(w, DoGet(a, connects)))
  {
    hide ListsOk, GapAt, GapOverall, Get, Total, StreamsOk;
    GetEffect(w.pool, a, w.clock, Connection(w, connects));
    GetHandsOut(w, a, connects);
    var (p, got) := Get(w.pool, a, w.clock, Connection(w, connects));
    if got.Some? { HeldGrows(w.held, got.value, a); }
  }

  lemma GetOnIdle(p: Pool, a: Addr, now: nat, connected: Option<Stream>)
    requires p.config.enabled
    ensures Get(p, a, now, connected).0.idle == TakeIdle(p, a, now).0.idle
    ensures var (t, found) := TakeIdle(p, a, now);
      Get(p, a, now, connected).1 == if found.Some? then found else connected
  {
    hide TakeIdle, Plus;
  }

  lemma GetKeepsStreams(w: World, a: Addr, connects: bool)
    requires StreamsOk(w) && ListsOk(w.pool, w.clock) && w.pool.config.enabled
    ensures StreamsOk(Next(w, DoGet(a, connects)))
  {
    hide Ordered, PopFresh, Distinct, TakeIdle, Get;
    TakeIdleCases(w.pool, a, w.clock);
    GetOnIdle(w.pool, a, w.clock, Connection(w, connects));
    var (t, found) := TakeIdle(w.pool, a, w.clock);
    var w1 := w.(pool := t);
    if a in w.pool.idle {
      var list := w.pool.idle[a];
      ShrinkKeepsStreams(w, w1, a, 0, if found.Some? then |list| - 1 else 0);
      if found.Some? {
        PoppedIsGone(w.pool.idle, t.idle, a);
      }
    }
    assert StreamsOk(w1);
  }

  /** The stream that was handed out is no longer idle anywhere. */
  lemma PoppedIsGone(idle: map<Addr, seq<Conn>>, idle': map<Addr, seq<Conn>>, a: Addr)
    requires Distinct(idle) && a in idle && idle[a] != [] && ShrunkTo(idle, idle', a, 0, |idle[a]| - 1)
    ensures forall b, i :: b in idle' && 0 <= i < |idle'[b]| ==> idle'[b][i].stream != idle[a][|idle[a]| - 1].stream
  {
    forall b, i | b in idle' && 0 <= i < |idle'[b]|
      ensures idle'[b][i].stream != idle[a][|idle[a]| - 1].stream
    {
      assert b in idle && i < |idle[b]| && idle'[b][i] == idle[b][i];
    }
  }

  // ----- storing a stream -----

  lemma EffectTrans(p: Pool, q: Pool, r: Pool, a: Addr, gap1: int, used1: int, gap2: int, used2: int)
    requires Effect(p, q, a, gap1, used1) && Effect(q, r, a, gap2, used2)
    ensures Effect(p, r, a, gap1 + gap2, used1 + used2)
  {
    hide GapAt, GapOverall, DestOf;
  }

  lemma PushEffect(p: Pool, a: Addr, c: Conn)
    ensures Effect(p, Push(p, a, c), a, -1, 0)
  {
    hide Left;
  }

  /** Losing its head moves a destination's gap up by one; putting the eviction on its books moves it back. */
  lemma EvictionEffect(p: Pool, q: Pool, v: Addr, a: Addr)
    requires v in p.idle && p.idle[v] != []
    requires Effect(DropHead(p, v), q, a, -1, 0)
    ensures Effect(p, RecordEvicted(q, Some(v)), a, -1, 0)
  {
    hide Left, Counted, GapAt, GapOverall;
    DropHeadEffect(p, v);
    RecordEvictedEffect(q, v);
  }

  lemma DropHeadEffect(p: Pool, v: Addr)
    requires v in p.idle && p.idle[v] != []
    ensures var d := DropHead(p, v);
      && (forall x :: GapAt(d, x) == GapAt(p, x) + if x == v then 1 else 0)
      && GapOverall(d) == GapOverall(p) && d.metrics == p.metrics && d.config == p.config
      && (forall x :: DestOf(d, x) == DestOf(p, x))
  {
    hide GapAt, GapOverall;
    SetListEffect(p, v, p.idle[v][1..], p.totalIdle);
    assert DropHead(p, v) == p.(idle := WithList(p.idle, v, p.idle[v][1..]), totalIdle := p.totalIdle);
  }

  lemma RecordEvictedEffect(q: Pool, v: Addr)
    ensures var r := RecordEvicted(q, Some(v));
      && (forall x :: GapAt(r, x) == GapAt(q, x) - if x == v then 1 else 0)
      && GapOverall(r) == GapOverall(q) && r.config == q.config
      && (forall x :: DestOf(r, x).inUse == DestOf(q, x).inUse) && r.metrics.inUse == q.metrics.inUse
  {
    EvictionGap();
    hide Left, Counted;
    CountedEffect(q, v, ZERO.(evicted := 1));
  }

  lemma StoreEffect(p: Pool, a: Addr, s: Stream, now: nat, victim: Option<Addr>)
    requires MayEvict(p, a, victim)
    ensures Effect(p, Store(p, a, s, now, victim), a, -1, 0)
  {
    if Full(p, a) {
      assert Effect(p, p, a, 0, 0) by { hide Left; }
      assert Gap(ZERO.(drops := 1), 0) == -1;
      hide Effect, Counted;
      CountedIsEffect(p, p, a, ZERO.(drops := 1), 0, 0);
    } else {
      hide Effect, Counted, Push, DropHead;
      var d := if victim.Some? then DropHead(p, victim.value) else p;
      PushEffect(d, a, Conn(s, now, now));
      if victim.Some? {
        EvictionEffect(p, Push(d, a, Conn(s, now, now)), victim.value, a);
      }
    }
  }

  lemma StoreKeepsCounters(p: Pool, a: Addr, s: Stream, now: nat, victim: Option<Addr>)
    requires CountersOk(p)
    ensures CountersOk(Store(p, a, s, now, victim))
  {
    hide CountersOk, Counted;
    var q := Insert(p, a, s, now, victim);
    CountersFrame(p, q);
    CountedKeeps(q, a, ZERO.(drops := 1));
    var r := if Full(p, a) then Counted(q, a, ZERO.(drops := 1)) else q;
    if victim.Some? {
      CountedKeeps(r, victim.value, ZERO.(evicted := 1));
      CountersFrame(Counted(r, victim.value, ZERO.(evicted := 1)), RecordEvicted(r, victim));
    }
  }

  /** The lists and the idle total that a store leaves behind. */
  lemma StoreShape(p: Pool, a: Addr, s: Stream, now: nat, victim: Option<Addr>)
    requires MayEvict(p, a, victim)
    ensures var q := Store(p, a, s, now, victim);
      var d := if victim.Some? then DropHead(p, victim.value) else p;
      && q.config == p.config && q.active == p.active
      && q.idle == (if Full(p, a) then p.idle else d.idle[a := IdleOf(d, a) + [Conn(s, now, now)]])
      && q.totalIdle == (if Full(p, a) || victim.Some? then p.totalIdle else p.totalIdle + 1)
  {
    hide Plus;
  }

  lemma DropHeadKeeps(p: Pool, v: Addr, now: nat)
    requires ListsOk(p, now) && v in p.idle
    ensures var d := DropHead(p, v);
      && ListsOk(d, now) && d.config == p.config && d.totalIdle == p.totalIdle
      && ShrunkTo(p.idle, d.idle, v, 1, |p.idle[v]|)
      && Total(d.idle, Length) == Total(p.idle, Length) - 1
      && (forall b :: |IdleOf(d, b)| <= |IdleOf(p, b)|)
  {
    hide Ordered, Total;
    var d := DropHead(p, v);
    assert p.idle[v][1..] == p.idle[v][1..|p.idle[v]|];
    ShrinkKeepsLists(p, d, now, v, 1, |p.idle[v]|);
    WithListTotal(p.idle, v, p.idle[v][1..]);
  }

  lemma PushKeepsLists(p: Pool, now: nat, a: Addr, s: Stream)
    requires ListsOk(p, now) && (|IdleOf(p, a)| < p.config.maxIdlePerDest || a !in p.idle)
    ensures var q := p.(idle := p.idle[a := IdleOf(p, a) + [Conn(s, now, now)]]);
      ListsOk(q, now) && Total(q.idle, Length) == Total(p.idle, Length) + 1
  {
    hide Total;
    AppendIsOrdered(IdleOf(p, a), now, s);
    TotalUpdate(p.idle, a, IdleOf(p, a) + [Conn(s, now, now)], Length);
    hide Ordered;
  }

  lemma EmptyMeansZero(p: Pool, now: nat)
    requires ListsOk(p, now) && NoHeads(p)
    ensures Total(p.idle, Length) == 0
  {
    assert p.idle == map[];
  }

  lemma StoreOnLists(p: Pool, a: Addr, s: Stream, now: nat, victim: Option<Addr>)
    requires ListsOk(p, now) && TotalOk(p) && MayEvict(p, a, victim)
    ensures var q := Store(p, a, s, now, victim);
      ListsOk(q, now) && TotalOk(q) && q.config == p.config
  {
    hide Total, Ordered, Store, DropHead;
    StoreShape(p, a, s, now, victim);
    var q := Store(p, a, s, now, victim);
    if !Full(p, a) {
      if victim.Some? {
        DropHeadKeeps(p, victim.value, now);
        PushKeepsLists(DropHead(p, victim.value), now, a, s);
      } else {
        PushKeepsLists(p, now, a, s);
        if Crowded(p) { EmptyMeansZero(p, now); }
      }
    }
  }

  /** A new stream at the end of a list, when it is idle nowhere else and held by nobody. */
  lemma PushKeepsStreams(w: World, w': World, a: Addr, c: Conn)
    requires StreamsOk(w)
    requires w'.pool.idle == w.pool.idle[a := IdleOf(w.pool, a) + [c]]
    requires forall b, i :: b in w.pool.idle && 0 <= i < |w.pool.idle[b]| ==> w.pool.idle[b][i].stream != c.stream
    requires c.stream < w'.unused && w.unused <= w'.unused && c.stream !in w'.held
    requires w'.held.Keys <= w.held.Keys
    ensures StreamsOk(w')
  {
    var idle: map<Addr, seq<Conn>>, idle': map<Addr, seq<Conn>> := w.pool.idle, w'.pool.idle;
    var n := |IdleOf(w.pool, a)|;
    forall b, i | b in idle' && 0 <= i < |idle'[b]|
      ensures (b == a && i == n && idle'[b][i] == c) || (b in idle && i < |idle[b]| && idle'[b][i] == idle[b][i]) {}
    forall b, i, x, j | b in idle' && x in idle' && 0 <= i < |idle'[b]| && 0 <= j < |idle'[x]|
                        && idle'[b][i].stream == idle'[x][j].stream
      ensures b == x && i == j
    {
      assert (b == a && i == n) || (b in idle && i < |idle[b]| && idle'[b][i] == idle[b][i]);
      assert (x == a && j == n) || (x in idle && j < |idle[x]| && idle'[x][j] == idle[x][j]);
    }
  }

  lemma StoreKeepsStreams(w: World, w': World, a: Addr, s: Stream, victim: Option<Addr>)
    requires StreamsOk(w) && ListsOk(w.pool, w.clock) && MayEvict(w.pool, a, victim)
    requires forall b, i :: b in w.pool.idle && 0 <= i < |w.pool.idle[b]| ==> w.pool.idle[b][i].stream != s
    requires w'.pool.idle == Store(w.pool, a, s, w.clock, victim).idle
    requires s < w'.unused && w.unused <= w'.unused && s !in w'.held && w'.held.Keys <= w.held.Keys
    ensures StreamsOk(w')
  {
    hide Ordered, Store, DropHead, Distinct;
    StoreShape(w.pool, a, s, w.clock, victim);
    if !Full(w.pool, a) {
      if victim.Some? {
        var v := victim.value;
        var w1 := w.(pool := DropHead(w.pool, v));
        DropHeadKeeps(w.pool, v, w.clock);
        ShrinkKeepsStreams(w, w1, v, 1, |w.pool.idle[v]|);
        forall b, i | b in w1.pool.idle && 0 <= i < |w1.pool.idle[b]| ensures w1.pool.idle[b][i].stream != s {
          assert w1.pool.idle[b][i] == w.pool.idle[b][if b == v then i + 1 else i];
        }
        PushKeepsStreams(w1, w', a, Conn(s, w.clock, w.clock));
      } else {
        PushKeepsStreams(w, w', a, Conn(s, w.clock, w.clock));
      }
    }
  }

  // ----- giving a stream back -----

  lemma HeldShrinks(held: map<Stream, Addr>, s: Stream)
    requires s in held
    ensures forall b :: Total(held - {s}, HeldAt(b)) == Total(held, HeldAt(b)) - if held[s] == b then 1 else 0
    ensures Total(held - {s}, One) == Total(held, One) - 1
    ensures Total(held, HeldAt(held[s])) >= 1 && Total(held, One) >= 1
  {
    forall b ensures Total(held - {s}, HeldAt(b)) == Total(held, HeldAt(b)) - if held[s] == b then 1 else 0 {
      TotalRemove(held, s, HeldAt(b));
    }
    TotalRemove(held, s, One);
    TotalBounds(held, HeldAt(held[s]));
    TotalBounds(held, One);
    assert HeldAt(held[s])(held[s]) == 1;
  }

  /** For a stream that is held, no counter saturates. */
  lemma ReturnedIsCounted(w: World, s: Stream)
    requires HeldOk(w) && s in w.held
    ensures Returned(w.pool, w.held[s]) == Counted(w.pool, w.held[s], ZERO.(inUse := -1))
  {
    hide Total;
    HeldShrinks(w.held, s);
  }

  lemma ReturnedEffect(w: World, s: Stream)
    requires HeldOk(w) && s in w.held
    ensures Effect(w.pool, Returned(w.pool, w.held[s]), w.held[s], 1, -1)
    ensures CountersOk(w.pool) ==> CountersOk(Returned(w.pool, w.held[s]))
  {
    ReturnedIsCounted(w, s);
    var a := w.held[s];
    assert Effect(w.pool, w.pool, a, 0, 0) by { hide Left; }
    assert Gap(ZERO.(inUse := -1), 0) == 1;
    hide Effect, Counted, Returned, CountersOk;
    CountedIsEffect(w.pool, w.pool, a, ZERO.(inUse := -1), 0, 0);
    if CountersOk(w.pool) { CountedKeeps(w.pool, a, ZERO.(inUse := -1)); }
  }

  lemma DeactivateEffect(p: Pool, q: Pool, a: Addr, gap: int, used: int)
    requires Effect(p, q, a, gap, used)
    ensures Effect(p, Deactivate(q, a), a, gap, used)
  {
    hide Left;
  }

  /** In use, active and held all go down by one at the stream's destination. */
  lemma ReturnKeepsHeld(w: World, w': World, s: Stream, gap: int)
    requires HeldOk(w) && s in w.held && w'.held == w.held - {s}
    requires Effect(w.pool, w'.pool, w.held[s], gap, -1)
    requires w'.pool.active == Deactivate(w.pool, w.held[s]).active
    ensures HeldOk(w')
  {
    hide Total, GapAt, GapOverall;
    HeldShrinks(w.held, s);
  }

  lemma DiscardKeepsBooks(w: World, w': World, s: Stream)
    requires BooksOk(w) && s in w.held && w'.discarded == Discard(w, s).discarded
    requires Effect(w.pool, w'.pool, w.held[s], 1, -1)
    ensures BooksOk(w')
  {
    hide Total, GapAt, GapOverall;
    TotalUpdate(w.discarded, w.held[s], DiscardedOf(w, w.held[s]) + 1, Itself);
  }

  lemma DiscardKeepsInv(w: World, s: Stream, w': World)
    requires Inv(w) && w.pool.config.enabled && s in w.held
    requires w' == Discard(w, s).(pool := Deactivate(Returned(w.pool, w.held[s]), w.held[s]))
    ensures Inv(w')
  {
    hide ListsOk, TotalOk, StreamsOk, BooksOk, HeldOk, CountersOk, Effect;
    var a := w.held[s];
    var r := Returned(w.pool, a);
    ReturnedEffect(w, s);
    DeactivateEffect(w.pool, r, a, 1, -1);
    CountersFrame(r, w'.pool);
    DiscardKeepsBooks(w, w', s);
    ReturnKeepsHeld(w, w', s, 1);
    IdleFrame(w, w', s);
  }

  /** Giving up a stream does not touch the idle lists. */
  lemma IdleFrame(w: World, w': World, s: Stream)
    requires ListsOk(w.pool, w.clock) && TotalOk(w.pool) && StreamsOk(w)
    requires w'.pool.idle == w.pool.idle && w'.pool.totalIdle == w.pool.totalIdle && w'.pool.config == w.pool.config
    requires w'.held == w.held - {s} && w'.unused == w.unused && w'.clock == w.clock
    ensures ListsOk(w'.pool, w'.clock) && TotalOk(w'.pool) && StreamsOk(w')
  {
    hide Ordered, Total, Distinct;
  }

  lemma PutBackKeepsInv(w: World, s: Stream, victim: Option<Addr>)
    requires Inv(w) && w.pool.config.enabled && s in w.held && MayEvict(w.pool, w.held[s], victim)
    ensures Inv(Next(w, DoPut(s, Reuse, victim)))
  {
    hide ListsOk, TotalOk, StreamsOk, HeldOk, CountersOk, Effect, Store, Returned;
    var a := w.held[s];
    var r := Returned(w.pool, a);
    var q := Store(r, a, s, w.clock, victim);
    var w' := Next(w, DoPut(s, Reuse, victim));
    ReturnedFrame(w.pool, a, victim);
    ReturnedEffect(w, s);
    StoreEffect(r, a, s, w.clock, victim);
    EffectTrans(w.pool, r, q, a, 1, -1, -1, 0);
    DeactivateEffect(w.pool, q, a, 0, -1);
    StoreKeepsCounters(r, a, s, w.clock, victim);
    CountersFrame(q, w'.pool);
    EffectKeepsBooks(w, w', a, -1);
    StoreShape(r, a, s, w.clock, victim);
    ReturnKeepsHeld(w, w', s, 0);
    PutBackOnIdle(w, s, victim);
  }

  lemma EffectKeepsBooks(w: World, w': World, a: Addr, used: int)
    requires BooksOk(w) && w'.discarded == w.discarded && Effect(w.pool, w'.pool, a, 0, used)
    ensures BooksOk(w')
  {
    hide Total, GapAt, GapOverall;
  }

  lemma ReturnedFrame(p: Pool, a: Addr, victim: Option<Addr>)
    ensures var r := Returned(p, a);
      && r.config == p.config && r.idle == p.idle && r.totalIdle == p.totalIdle && r.active == p.active
      && (MayEvict(p, a, victim) ==> MayEvict(r, a, victim))
  {}

  lemma PutBackOnIdle(w: World, s: Stream, victim: Option<Addr>)
    requires ListsOk(w.pool, w.clock) && TotalOk(w.pool) && StreamsOk(w)
    requires w.pool.config.enabled && s in w.held && MayEvict(w.pool, w.held[s], victim)
    ensures var w' := Next(w, DoPut(s, Reuse, victim));
      ListsOk(w'.pool, w'.clock) && TotalOk(w'.pool) && StreamsOk(w')
  {
    hide Ordered, Total, Distinct, Store, Returned;
    var a := w.held[s];
    var r := Returned(w.pool, a);
    ReturnedFrame(w.pool, a, victim);
    StoreOnLists(r, a, s, w.clock, victim);
    var w' := Next(w, DoPut(s, Reuse, victim));
    StoreKeepsStreams(w.(pool := r), w', a, s, victim);
  }

  // ----- the other operations -----

  lemma GetKeepsInv(w: World, a: Addr, connects: bool)
    requires Inv(w) && w.pool.config.enabled
    ensures Inv(Next(w, DoGet(a, connects)))
  {
    hide ListsOk, TotalOk, StreamsOk, HeldOk, BooksOk, CountersOk, Get;
    var conn := Connection(w, connects);
    GetOnLists(w.pool, a, w.clock, conn);
    GetKeepsCounters(w.pool, a, w.clock, conn);
    GetKeepsBooks(w, a, connects);
    GetKeepsHeld(w, a, connects);
    GetKeepsStreams(w, a, connects);
  }

  lemma RefreshKeepsInv(w: World, a: Addr, victim: Option<Addr>)
    requires Inv(w) && w.pool.config.enabled && MayEvict(w.pool, a, victim)
    ensures Inv(Next(w, DoRefresh(a, true, victim)))
  {
    hide ListsOk, TotalOk, StreamsOk, HeldOk, CountersOk, Effect, Store, Counted;
    var c := Counted(w.pool, a, ZERO.(created := 1));
    var q := Store(c, a, w.unused, w.clock, victim);
    var w' := Next(w, DoRefresh(a, true, victim));
    CountedFrame(w.pool, a, victim);
    CountedKeeps(w.pool, a, ZERO.(created := 1));
    NoEffect(w.pool, a);
    assert Gap(ZERO.(created := 1), 0) == 1;
    CountedIsEffect(w.pool, w.pool, a, ZERO.(created := 1), 0, 0);
    StoreEffect(c, a, w.unused, w.clock, victim);
    EffectTrans(w.pool, c, q, a, 1, 0, -1, 0);
    EffectKeepsBooks(w, w', a, 0);
    StoreKeepsCounters(c, a, w.unused, w.clock, victim);
    StoreShape(c, a, w.unused, w.clock, victim);
    UnusedKeepsHeld(w, w', a);
    RefreshOnIdle(w, a, victim);
  }

  lemma NoEffect(p: Pool, a: Addr)
    ensures Effect(p, p, a, 0, 0)
  {
    hide Left;
  }

  lemma CountedFrame(p: Pool, a: Addr, victim: Option<Addr>)
    ensures var c := Counted(p, a, ZERO.(created := 1));
      && c.config == p.config && c.idle == p.idle && c.totalIdle == p.totalIdle && c.active == p.active
      && (MayEvict(p, a, victim) ==> MayEvict(c, a, victim))
  {
    hide Plus;
  }

  lemma UnusedKeepsHeld(w: World, w': World, a: Addr)
    requires HeldOk(w) && w'.held == w.held && w'.pool.active == w.pool.active
    requires Effect(w.pool, w'.pool, a, 0, 0)
    ensures HeldOk(w')
  {
    hide Total, GapAt, GapOverall;
  }

  lemma RefreshOnIdle(w: World, a: Addr, victim: Option<Addr>)
    requires ListsOk(w.pool, w.clock) && TotalOk(w.pool) && StreamsOk(w)
    requires w.pool.config.enabled && MayEvict(w.pool, a, victim)
    ensures var w' := Next(w, DoRefresh(a, true, victim));
      ListsOk(w'.pool, w'.clock) && TotalOk(w'.pool) && StreamsOk(w')
  {
    hide Ordered, Total, Distinct, Store, Counted;
    var c := Counted(w.pool, a, ZERO.(created := 1));
    CountedFrame(w.pool, a, victim);
    StoreOnLists(c, a, w.unused, w.clock, victim);
    var w' := Next(w, DoRefresh(a, true, victim));
    StoreKeepsStreams(w.(pool := c), w', a, w.unused, victim);
  }

  lemma CleanShape(p: Pool, a: Addr, now: nat)
    requires ListsOk(p, now)
    ensures var q := Clean(p, a, now);
      var kept := Fresh(IdleOf(p, a), now, p.config.idleTimeout);
      && |kept| <= |IdleOf(p, a)| && kept == IdleOf(p, a)[|IdleOf(p, a)| - |kept|..]
      && q.idle == WithList(p.idle, a, kept) && q.active == p.active && q.config == p.config
      && q.totalIdle == p.totalIdle - (|IdleOf(p, a)| - |kept|)
  {
    hide Fresh, RecordExpired;
    assert Ordered(IdleOf(p, a), now);
    hide ListsOk, Ordered, IdleOf;
    CleanKeepsASuffix(IdleOf(p, a), now, p.config.idleTimeout);
    var kept := Fresh(IdleOf(p, a), now, p.config.idleTimeout);
    RecordExpiredFrame(p.(idle := WithList(p.idle, a, kept)), a, |IdleOf(p, a)| - |kept|);
  }

  lemma CleanEffect(p: Pool, a: Addr, now: nat)
    ensures Effect(p, Clean(p, a, now), a, 0, 0)
  {
    hide Fresh, Left, GapAt, GapOverall, RecordExpired;
    var list := IdleOf(p, a);
    var kept := Fresh(list, now, p.config.idleTimeout);
    FreshIsNoLonger(list, now, p.config.idleTimeout);
    var m := p.(idle := WithList(p.idle, a, kept));
    SetListEffect(p, a, kept, p.totalIdle);
    assert m == p.(idle := WithList(p.idle, a, kept), totalIdle := p.totalIdle);
    RecordExpiredEffect(m, a, |list| - |kept|);
  }

  lemma RecordExpiredFrame(p: Pool, a: Addr, n: nat)
    ensures var q := RecordExpired(p, a, n);
      q.idle == p.idle && q.active == p.active && q.config == p.config && q.totalIdle == p.totalIdle - n
  {
    hide Plus;
  }

  lemma CleanKeepsInv(w: World, a: Addr)
    requires Inv(w) && w.pool.config.enabled
    ensures Inv(Next(w, DoClean(a)))
  {
    hide ListsOk, TotalOk, StreamsOk, HeldOk, CountersOk, Effect, Fresh, RecordExpired;
    var w' := Next(w, DoClean(a));
    CleanShape(w.pool, a, w.clock);
    CleanEffect(w.pool, a, w.clock);
    EffectKeepsBooks(w, w', a, 0);
    UnusedKeepsHeld(w, w', a);
    var list := IdleOf(w.pool, a);
    var kept := Fresh(list, w.clock, w.pool.config.idleTimeout);
    var m := w.pool.(idle := WithList(w.pool.idle, a, kept));
    CountersFrame(w.pool, m);
    RecordExpiredKeeps(m, a, |list| - |kept|);
    CleanOnIdle(w, w', a, kept);
  }

  lemma CleanOnIdle(w: World, w': World, a: Addr, kept: seq<Conn>)
    requires ListsOk(w.pool, w.clock) && TotalOk(w.pool) && StreamsOk(w)
    requires |kept| <= |IdleOf(w.pool, a)| && kept == IdleOf(w.pool, a)[|IdleOf(w.pool, a)| - |kept|..]
    requires w'.pool.idle == WithList(w.pool.idle, a, kept) && w'.pool.config == w.pool.config
    requires w'.pool.totalIdle == w.pool.totalIdle - (|IdleOf(w.pool, a)| - |kept|)
    requires w'.held == w.held && w'.unused == w.unused && w'.clock == w.clock
    ensures ListsOk(w'.pool, w'.clock) && TotalOk(w'.pool) && StreamsOk(w')
  {
    hide Ordered, Total, Distinct;
    if a in w.pool.idle {
      var n := |w.pool.idle[a]|;
      assert kept == w.pool.idle[a][n - |kept|..n];
      WithListTotal(w.pool.idle, a, kept);
      ShrinkKeepsLists(w.pool, w'.pool, w.clock, a, n - |kept|, n);
      ShrinkKeepsStreams(w, w', a, n - |kept|, n);
    } else {
      assert w'.pool.idle == w.pool.idle;
    }
  }

  lemma TickKeepsInv(w: World, nanos: nat)
    requires Inv(w)
    ensures Inv(w.(clock := w.clock + nanos))
  {
    hide TotalOk, CountersOk;
    var w' := w.(clock := w.clock + nanos);
    assert BooksOk(w') && HeldOk(w') && StreamsOk(w');
    hide BooksOk, HeldOk, StreamsOk;
  }

  lemma NextKeepsInv(w: World, op: Op)
    requires Inv(w)
    ensures Inv(Next(w, op))
  {
    hide Inv, Get, Put, Store, Clean, MayEvict, Counted, Returned;
    if op.Tick? {
      TickKeepsInv(w, op.nanos);
    } else if w.pool.config.enabled {
      match op
      case DoGet(a, connects) => GetKeepsInv(w, a, connects);
      case DoPut(s, hint, victim) =>
        if s in w.held {
          if hint.Refresh? {
            PutRefreshIsDiscard(w, s, victim);
            DiscardKeepsInv(w, s, Next(w, op));
          } else if MayEvict(w.pool, w.held[s], victim) {
            PutBackKeepsInv(w, s, victim);
          }
        }
      case DoRelease(s) =>
        if s in w.held { DiscardKeepsInv(w, s, Next(w, op)); }
      case DoRefresh(a, connects, victim) =>
        if connects && MayEvict(w.pool, a, victim) { RefreshKeepsInv(w, a, victim); }
      case DoClean(a) => CleanKeepsInv(w, a);
    }
  }

  lemma PutRefreshIsDiscard(w: World, s: Stream, victim: Option<Addr>)
    requires w.pool.config.enabled && s in w.held
    ensures Next(w, DoPut(s, Refresh, victim))
         == Discard(w, s).(pool := Deactivate(Returned(w.pool, w.held[s]), w.held[s]))
  {}

  lemma {:induction false} RunKeepsInv(w: World, ops: seq<Op>)
    requires Inv(w)
    ensures Inv(Run(w, ops))
    decreases |ops|
  {
    hide Inv, Next;
    if ops != [] {
      NextKeepsInv(w, ops[0]);
      RunKeepsInv(Next(w, ops[0]), ops[1..]);
    }
  }

  lemma BeginInv(c: Config)
    ensures Inv(Begin(c))
  {
    BeginBooks(c);
    hide BooksOk, Left;
  }

  lemma BeginBooks(c: Config)
    ensures BooksOk(Begin(c))
  {}

  // ----- what every run guarantees -----

  lemma StoreKeepsConfig(p: Pool, a: Addr, s: Stream, now: nat, victim: Option<Addr>)
    ensures Store(p, a, s, now, victim).config == p.config
  {
    hide Plus, IdleOf, Full;
  }

  lemma NextKeepsConfig(w: World, op: Op)
    ensures Next(w, op).pool.config == w.pool.config
  {
    hide Plus, DestOf, IdleOf, PopFresh, Fresh, MayEvict, Full, SaturatingPred, Store;
    match op {
      case DoPut(s, _, victim) =>
        if s in w.held { StoreKeepsConfig(Returned(w.pool, w.held[s]), w.held[s], s, w.clock, victim); }
      case DoRefresh(a, _, victim) =>
        StoreKeepsConfig(Counted(w.pool, a, ZERO.(created := 1)), a, w.unused, w.clock, victim);
      case _ =>
    }
  }

  lemma {:induction false} RunKeepsConfig(w: World, ops: seq<Op>)
    ensures Run(w, ops).pool.config == w.pool.config
    decreases |ops|
  {
    hide Next;
    if ops != [] {
      NextKeepsConfig(w, ops[0]);
      RunKeepsConfig(Next(w, ops[0]), ops[1..]);
    }
  }

  lemma Reached(c: Config, ops: seq<Op>)
    ensures Inv(Run(Begin(c), ops)) && Run(Begin(c), ops).pool.config == c
  {
    hide Inv, Run;
    BeginInv(c);
    RunKeepsInv(Begin(c), ops);
    RunKeepsConfig(Begin(c), ops);
  }

  /** The counter that replaces the scan is the scan, and both limits hold. */
  lemma IdleCounterIsTheScan(c: Config, ops: seq<Op>)
    ensures var p := Run(Begin(c), ops).pool;
      && p.totalIdle == Total(p.idle, Length) <= Max(1, c.maxTotalIdle)
      && forall a :: a in p.idle ==> 1 <= |p.idle[a]| <= Max(1, c.maxIdlePerDest)
  {
    Reached(c, ops);
    hide Run, BooksOk, HeldOk, StreamsOk, CountersOk, Ordered;
  }

  /** Every global counter is the sum of the destinations' counters. */
  lemma GlobalCountersAreSums(c: Config, ops: seq<Op>)
    ensures var p := Run(Begin(c), ops).pool;
      p.metrics == SumOf(p.dest)
  {
    Reached(c, ops);
    hide Run, BooksOk, HeldOk, StreamsOk, ListsOk, SumOf;
  }

  /**
   * Streams are conserved, per destination and overall: every stream ever created is idle, held by a
   * client, or gone as dropped, expired, evicted or discarded.
   */
  lemma StreamsAreConserved(c: Config, ops: seq<Op>, a: Addr)
    ensures var w := Run(Begin(c), ops);
      var d, m := DestOf(w.pool, a), w.pool.metrics;
      && d.created == |IdleOf(w.pool, a)| + d.inUse + d.drops + d.expired + d.evicted + DiscardedOf(w, a)
      && m.created == w.pool.totalIdle + m.inUse + m.drops + m.expired + m.evicted + Total(w.discarded, Itself)
      && d.inUse == ActiveOf(w.pool, a) == Total(w.held, HeldAt(a))
      && m.inUse == Total(w.held, One)
  {
    hide Run, StreamsOk, ListsOk, CountersOk, TotalOk, Total, DestOf, IdleOf, DiscardedOf, Left;
    Reached(c, ops);
    var w := Run(Begin(c), ops);
    assert GapAt(w.pool, a) == DiscardedOf(w, a);
    LeftIsWhatItSays(DestOf(w.pool, a));
    LeftIsWhatItSays(w.pool.metrics);
  }

  lemma LeftIsWhatItSays(c: Counters)
    ensures c.created == Left(c) + c.inUse + c.drops + c.expired + c.evicted
  {}

  /** No stream is idle twice, and none is handed to a client while another holds it. */
  lemma NoStreamIsSharedTwice(c: Config, ops: seq<Op>, a: Addr, connects: bool)
    ensures var w := Run(Begin(c), ops);
      && Distinct(w.pool.idle)
      && (c.enabled ==>
            var got := Get(w.pool, a, w.clock, Connection(w, connects)).1;
            got.Some? ==> got.value !in w.held)
  {
    Reached(c, ops);
    var w := Run(Begin(c), ops);
    hide Run, BooksOk, HeldOk, CountersOk, TotalOk, ListsOk, Get;
    if c.enabled { GetHandsOut(w, a, connects); }
  }

  /** Looking only at the heads of the lists, eviction removes a globally oldest stream. */
  lemma EvictionTakesTheOldest(c: Config, ops: seq<Op>, a: Addr, v: Addr)
    ensures var p := Run(Begin(c), ops).pool;
      MayEvict(p, a, Some(v)) ==>
        && v in p.idle && p.idle[v] != []
        && forall b, i :: b in p.idle && 0 <= i < |p.idle[b]| ==> p.idle[v][0].createdAt <= p.idle[b][i].createdAt
  {
    Reached(c, ops);
    var p := Run(Begin(c), ops).pool;
    hide Run, BooksOk, HeldOk, CountersOk, TotalOk, StreamsOk;
    if MayEvict(p, a, Some(v)) {
      forall b, i | b in p.idle && 0 <= i < |p.idle[b]| ensures p.idle[v][0].createdAt <= p.idle[b][i].createdAt {
        assert Ordered(p.idle[b], Run(Begin(c), ops).clock);
        assert p.idle[b][0].createdAt <= p.idle[b][i].createdAt;
      }
    }
  }

  /** A get hands out its destination's newest idle stream unless that one has expired; then it drains the list. */
  lemma GetTakesTheNewest(c: Config, ops: seq<Op>, a: Addr, connected: Option<Stream>)
    requires c.enabled
    ensures var w := Run(Begin(c), ops);
      a in w.pool.idle ==>
        && w.pool.idle[a] != []
        && var list := w.pool.idle[a];
        var newest := list[|list| - 1];
        var (q, got) := Get(w.pool, a, w.clock, connected);
        if IsExpired(newest, w.clock, c.idleTimeout)
        then IdleOf(q, a) == [] && got == connected && DestOf(q, a).expired == DestOf(w.pool, a).expired + |list|
        else IdleOf(q, a) == list[..|list| - 1] && got == Some(newest.stream)
  {
    Reached(c, ops);
    var w := Run(Begin(c), ops);
    hide Run, BooksOk, HeldOk, CountersOk, TotalOk, StreamsOk;
    if a in w.pool.idle {
      GetOnSoundPool(w.pool, a, w.clock, connected);
    }
  }

  lemma GetOnSoundPool(p: Pool, a: Addr, now: nat, connected: Option<Stream>)
    requires ListsOk(p, now) && p.config.enabled && a in p.idle
    ensures var list := p.idle[a];
      var newest := list[|list| - 1];
      var (q, got) := Get(p, a, now, connected);
      if IsExpired(newest, now, p.config.idleTimeout)
      then IdleOf(q, a) == [] && got == connected && DestOf(q, a).expired == DestOf(p, a).expired + |list|
      else IdleOf(q, a) == list[..|list| - 1] && got == Some(newest.stream)
  {
    TakeIdleCases(p, a, now);
    GetOnIdle(p, a, now, connected);
    var (t, found) := TakeIdle(p, a, now);
    if found.None? {
      hide TakeIdle, PopFresh, Ordered;
      var missed := Counted(t, a, ZERO.(misses := 1));
      assert DestOf(t, a).expired == DestOf(p, a).expired + |p.idle[a]|;
      assert DestOf(missed, a).expired == DestOf(t, a).expired;
    } else {
      hide TakeIdle, PopFresh, Ordered, Get;
    }
  }

  // ----- what is kept, dropped and evicted -----

  /** How many streams a destination may keep: one at least. */
  function Limit(c: Config): nat { Max(1, c.maxIdlePerDest) }

  lemma FullIsAtTheLimit(p: Pool, now: nat, a: Addr)
    requires ListsOk(p, now)
    ensures Full(p, a) <==> |IdleOf(p, a)| >= Limit(p.config)
  {
    hide Ordered;
  }

  /** Which evictions go with storing a stream, by the numbers. */
  lemma VictimsByNumbers(p: Pool, now: nat, a: Addr, victim: Option<Addr>)
    requires ListsOk(p, now)
    ensures MayEvict(p, a, victim) <==>
      match victim
      case None => |IdleOf(p, a)| >= Limit(p.config) || p.totalIdle < p.config.maxTotalIdle || p.idle == map[]
      case Some(v) =>
        && |IdleOf(p, a)| < Limit(p.config) && p.totalIdle >= p.config.maxTotalIdle
        && v in p.idle && forall b :: b in p.idle ==> p.idle[v][0].createdAt <= p.idle[b][0].createdAt
  {
    FullIsAtTheLimit(p, now, a);
    hide Ordered, Full, Limit;
  }

  /** Storing, by the numbers. */
  ghost predicate StoredByNumbers(p: Pool, q: Pool, a: Addr, s: Stream, now: nat, victim: Option<Addr>)
  {
    var n, limit := |IdleOf(p, a)|, Limit(p.config);
    && (n < limit ==> IdleOf(q, a) != [] && IdleOf(q, a)[|IdleOf(q, a)| - 1] == Conn(s, now, now))
    && (n >= limit ==> q.idle == p.idle)
    && q.metrics.drops == p.metrics.drops + (if n >= limit then 1 else 0)
    && DestOf(q, a).drops == DestOf(p, a).drops + (if n >= limit then 1 else 0)
    && q.metrics.evicted == p.metrics.evicted + (if victim.Some? then 1 else 0)
    && (n < limit && p.totalIdle < p.config.maxTotalIdle ==>
          victim.None? && q.idle == p.idle[a := IdleOf(p, a) + [Conn(s, now, now)]])
  }

  lemma StoreByNumbers(p: Pool, a: Addr, s: Stream, now: nat, victim: Option<Addr>)
    requires ListsOk(p, now) && MayEvict(p, a, victim)
    ensures StoredByNumbers(p, Store(p, a, s, now, victim), a, s, now, victim)
  {
    hide ListsOk, Full, Limit, Store, Ordered, MayEvict, DropHead, DestOf;
    FullIsAtTheLimit(p, now, a);
    VictimsByNumbers(p, now, a, victim);
    StoreShape(p, a, s, now, victim);
    StoreCounts(p, a, s, now, victim);
    if !Full(p, a) { NewestIsLast(p, a, s, now, victim); }
  }

  lemma NewestIsLast(p: Pool, a: Addr, s: Stream, now: nat, victim: Option<Addr>)
    requires MayEvict(p, a, victim) && !Full(p, a)
    ensures var list := IdleOf(Store(p, a, s, now, victim), a);
      list != [] && list[|list| - 1] == Conn(s, now, now)
  {
    StoreShape(p, a, s, now, victim);
    hide Store, MayEvict, Full, DropHead;
  }

  lemma StoreCounts(p: Pool, a: Addr, s: Stream, now: nat, victim: Option<Addr>)
    requires MayEvict(p, a, victim)
    ensures var q := Store(p, a, s, now, victim);
      && q.metrics.drops == p.metrics.drops + (if Full(p, a) then 1 else 0)
      && DestOf(q, a).drops == DestOf(p, a).drops + (if Full(p, a) then 1 else 0)
      && q.metrics.evicted == p.metrics.evicted + (if victim.Some? then 1 else 0)
  {
    hide Crowded, IsOldestHead, NoHeads, Counted, Plus, Insert, DestOf;
    var i := Insert(p, a, s, now, victim);
    InsertCounts(p, a, s, now, victim);
    CountedFields(i, a, ZERO.(drops := 1));
    if victim.Some? {
      CountedFields(i, victim.value, ZERO.(evicted := 1));
      SameDest(Counted(i, victim.value, ZERO.(evicted := 1)), RecordEvicted(i, victim), a);
    }
  }

  lemma InsertCounts(p: Pool, a: Addr, s: Stream, now: nat, victim: Option<Addr>)
    ensures var i := Insert(p, a, s, now, victim);
      i.metrics == p.metrics && i.dest == p.dest && DestOf(i, a) == DestOf(p, a)
  {}

  lemma SameDest(p: Pool, q: Pool, a: Addr)
    requires p.dest == q.dest
    ensures DestOf(p, a) == DestOf(q, a)
  {}

  lemma CountedFields(p: Pool, a: Addr, d: Counters)
    ensures var q := Counted(p, a, d);
      && q.metrics.drops == p.metrics.drops + d.drops && q.metrics.evicted == p.metrics.evicted + d.evicted
      && (forall x :: DestOf(q, x).drops == DestOf(p, x).drops + if x == a then d.drops else 0)
  {}

  /**
   * In every run, a stream that is put back for reuse while its destination has fewer than the limit
   * becomes the newest of its list and nothing is dropped; otherwise it is dropped and counted. Nothing
   * is evicted while fewer than the global limit are idle.
   */
  lemma PutByNumbers(c: Config, ops: seq<Op>, s: Stream, victim: Option<Addr>)
    requires c.enabled && s in Run(Begin(c), ops).held
    requires var w := Run(Begin(c), ops); MayEvict(w.pool, w.held[s], victim)
    ensures var w := Run(Begin(c), ops);
      StoredByNumbers(w.pool, Next(w, DoPut(s, Reuse, victim)).pool, w.held[s], s, w.clock, victim)
  {
    hide Run, BooksOk, HeldOk, CountersOk, TotalOk, StreamsOk, ListsOk, MayEvict, StoredByNumbers, Put, Next;
    Reached(c, ops);
    var w := Run(Begin(c), ops);
    PutStores(w.pool, w.held[s], s, w.clock, victim);
    PutIsPut(w, s, victim);
  }

  lemma PutIsPut(w: World, s: Stream, victim: Option<Addr>)
    requires s in w.held && w.pool.config.enabled && MayEvict(w.pool, w.held[s], victim)
    ensures Next(w, DoPut(s, Reuse, victim)).pool == Put(w.pool, w.held[s], s, Reuse, w.clock, victim)
  {
    hide MayEvict, Put;
  }

  lemma PutStores(p: Pool, a: Addr, s: Stream, now: nat, victim: Option<Addr>)
    requires ListsOk(p, now) && p.config.enabled && MayEvict(p, a, victim)
    ensures StoredByNumbers(p, Put(p, a, s, Reuse, now, victim), a, s, now, victim)
  {
    hide ListsOk, Store, Returned, MayEvict, Limit, StoredByNumbers, Deactivate;
    var r := Returned(p, a);
    ReturnedFrame(p, a, victim);
    SameLists(p, r, now);
    StoreByNumbers(r, a, s, now, victim);
    ReturnedCounts(p, a);
    DeactivateFrame(Store(r, a, s, now, victim), a);
    SameStored(p, r, Store(r, a, s, now, victim), Deactivate(Store(r, a, s, now, victim), a), a, s, now, victim);
  }

  lemma SameStored(p: Pool, p': Pool, q: Pool, q': Pool, a: Addr, s: Stream, now: nat, victim: Option<Addr>)
    requires StoredByNumbers(p', q, a, s, now, victim)
    requires p'.idle == p.idle && p'.config == p.config && p'.totalIdle == p.totalIdle
    requires p'.metrics.drops == p.metrics.drops && p'.metrics.evicted == p.metrics.evicted
    requires DestOf(p', a).drops == DestOf(p, a).drops
    requires q'.idle == q.idle && q'.metrics == q.metrics && q'.dest == q.dest
    ensures StoredByNumbers(p, q', a, s, now, victim)
  {
    hide Limit;
  }

  lemma SameLists(p: Pool, q: Pool, now: nat)
    requires ListsOk(p, now) && q.idle == p.idle && q.config == p.config
    ensures ListsOk(q, now)
  {}

  lemma ReturnedCounts(p: Pool, a: Addr)
    ensures var r := Returned(p, a);
      r.metrics.drops == p.metrics.drops && r.metrics.evicted == p.metrics.evicted && DestOf(r, a).drops == DestOf(p, a).drops
  {}

  lemma DeactivateFrame(p: Pool, a: Addr)
    ensures var q := Deactivate(p, a);
      q.idle == p.idle && q.metrics == p.metrics && q.dest == p.dest && q.config == p.config && q.totalIdle == p.totalIdle
  {}

  /** The same for a connection that a refresh has made. */
  lemma RefreshByNumbers(c: Config, ops: seq<Op>, a: Addr, victim: Option<Addr>)
    requires c.enabled && MayEvict(Run(Begin(c), ops).pool, a, victim)
    ensures var w := Run(Begin(c), ops);
      StoredByNumbers(w.pool, Next(w, DoRefresh(a, true, victim)).pool, a, w.unused, w.clock, victim)
  {
    Reached(c, ops);
    var w := Run(Begin(c), ops);
    hide Run, BooksOk, HeldOk, CountersOk, TotalOk, StreamsOk;
    var made := Counted(w.pool, a, ZERO.(created := 1));
    CountedFrame(w.pool, a, victim);
    SameLists(w.pool, made, w.clock);
    StoreByNumbers(made, a, w.unused, w.clock, victim);
    CreatedCounts(w.pool, a);
    hide ListsOk, Store, Counted, MayEvict, Limit, StoredByNumbers;
    var q := Store(made, a, w.unused, w.clock, victim);
    SameStored(w.pool, made, q, q, a, w.unused, w.clock, victim);
  }

  lemma CreatedCounts(p: Pool, a: Addr)
    ensures var r := Counted(p, a, ZERO.(created := 1));
      r.metrics.drops == p.metrics.drops && r.metrics.evicted == p.metrics.evicted && DestOf(r, a).drops == DestOf(p, a).drops
  {}

  /** Such an eviction can always be found, whatever the pool holds. */
  lemma SomeVictim(c: Config, ops: seq<Op>, a: Addr) returns (victim: Option<Addr>)
    ensures MayEvict(Run(Begin(c), ops).pool, a, victim)
  {
    Reached(c, ops);
    var w := Run(Begin(c), ops);
    hide Run, BooksOk, HeldOk, CountersOk, TotalOk, StreamsOk, Ordered;
    if Full(w.pool, a) || !Crowded(w.pool) || w.pool.idle == map[] {
      victim := None;
    } else {
      var v := OldestOf(w.pool.idle, w.pool.idle.Keys);
      victim := Some(v);
    }
  }

  lemma {:induction false} OldestOf(idle: map<Addr, seq<Conn>>, among: set<Addr>) returns (v: Addr)
    requires among != {} && among <= idle.Keys && forall b :: b in among ==> idle[b] != []
    ensures v in among && forall b :: b in among ==> idle[v][0].createdAt <= idle[b][0].createdAt
    decreases among
  {
    var b :| b in among;
    var rest := among - {b};
    if rest == {} {
      v := b;
      assert among == {b};
    } else {
      v := OldestOf(idle, rest);
      if idle[b][0].createdAt < idle[v][0].createdAt { v := b; }
    }
  }

  // ----- ages -----

  /**
   * In every run, by the clock: a get hands out its destination's newest stream if it was stored no
   * longer ago than the timeout, and books nothing as expired; else all of them are older than that, and
   * all are booked.
   */
  lemma GetByAge(c: Config, ops: seq<Op>, a: Addr, connected: Option<Stream>)
    requires c.enabled && a in Run(Begin(c), ops).pool.idle
    ensures var w := Run(Begin(c), ops);
      && w.pool.idle[a] != []
      && var list := w.pool.idle[a];
      var newest := list[|list| - 1];
      var (q, got) := Get(w.pool, a, w.clock, connected);
      if w.clock <= newest.createdAt + c.idleTimeout
      then got == Some(newest.stream) && DestOf(q, a).expired == DestOf(w.pool, a).expired
      else && DestOf(q, a).expired == DestOf(w.pool, a).expired + |list| && got == connected
           && forall i :: 0 <= i < |list| ==> w.clock > list[i].createdAt + c.idleTimeout
  {
    Reached(c, ops);
    var w := Run(Begin(c), ops);
    hide Run, BooksOk, HeldOk, CountersOk, TotalOk, StreamsOk;
    assert Ordered(w.pool.idle[a], w.clock);
    GetOnSoundPool(w.pool, a, w.clock, connected);
    var list := w.pool.idle[a];
    if !IsExpired(list[|list| - 1], w.clock, c.idleTimeout) { HitBooksNothing(w.pool, a, w.clock, connected); }
    hide Get, DestOf, ListsOk;
  }

  lemma HitBooksNothing(p: Pool, a: Addr, now: nat, connected: Option<Stream>)
    requires ListsOk(p, now) && p.config.enabled && a in p.idle
    requires !IsExpired(p.idle[a][|p.idle[a]| - 1], now, p.config.idleTimeout)
    ensures DestOf(Get(p, a, now, connected).0, a).expired == DestOf(p, a).expired
  {
    TakeIdleCases(p, a, now);
    hide TakeIdle, PopFresh, Ordered;
  }

  /** A cleanup keeps exactly the streams stored no longer ago than the timeout, and books exactly the others. */
  lemma CleanupByAge(c: Config, ops: seq<Op>, a: Addr)
    ensures var w := Run(Begin(c), ops);
      var list, kept := IdleOf(w.pool, a), IdleOf(Clean(w.pool, a, w.clock), a);
      && |kept| <= |list| && kept == list[|list| - |kept|..]
      && (forall i :: 0 <= i < |list| ==> (i >= |list| - |kept| <==> w.clock <= list[i].createdAt + c.idleTimeout))
      && DestOf(Clean(w.pool, a, w.clock), a).expired == DestOf(w.pool, a).expired + |list| - |kept|
  {
    hide Run, BooksOk, HeldOk, CountersOk, TotalOk, StreamsOk, ListsOk, Clean, IdleOf, DestOf;
    Reached(c, ops);
    var w := Run(Begin(c), ops);
    CleanByAge(w.pool, a, w.clock);
  }

  lemma CleanByAge(p: Pool, a: Addr, now: nat)
    requires ListsOk(p, now)
    ensures var list, kept := IdleOf(p, a), IdleOf(Clean(p, a, now), a);
      && |kept| <= |list| && kept == list[|list| - |kept|..]
      && (forall i :: 0 <= i < |list| ==> (i >= |list| - |kept| <==> now <= list[i].createdAt + p.config.idleTimeout))
      && DestOf(Clean(p, a, now), a).expired == DestOf(p, a).expired + |list| - |kept|
  {
    hide Fresh, Clean, DestOf;
    assert Ordered(IdleOf(p, a), now);
    hide ListsOk;
    KeptByAge(IdleOf(p, a), now, p.config.idleTimeout);
    CleanShape(p, a, now);
    CleanCounts(p, a, now);
    hide Ordered;
  }

  lemma KeptByAge(list: seq<Conn>, now: nat, timeout: nat)
    requires Ordered(list, now)
    ensures var kept := Fresh(list, now, timeout);
      && |kept| <= |list| && kept == list[|list| - |kept|..]
      && (forall i :: 0 <= i < |list| ==> (i >= |list| - |kept| <==> now <= list[i].createdAt + timeout))
  {
    CleanKeepsASuffix(list, now, timeout);
    hide Fresh;
  }

  lemma CleanCounts(p: Pool, a: Addr, now: nat)
    ensures var kept := Fresh(IdleOf(p, a), now, p.config.idleTimeout);
      DestOf(Clean(p, a, now), a).expired == DestOf(p, a).expired + |IdleOf(p, a)| - |kept|
  {
    hide Fresh;
  }

  /** A get counts once: a hit and a reuse if an idle stream is handed out, else a miss, and a connection if one is made. */
  lemma GetCounts(p: Pool, a: Addr, now: nat, connected: Option<Stream>)
    requires p.config.enabled
    ensures var found := TakeIdle(p, a, now).1.Some?;
      var q := Get(p, a, now, connected).0;
      && q.metrics.hits == p.metrics.hits + (if found then 1 else 0)
      && q.metrics.reused == p.metrics.reused + (if found then 1 else 0)
      && q.metrics.misses == p.metrics.misses + (if found then 0 else 1)
      && q.metrics.created == p.metrics.created + (if !found && connected.Some? then 1 else 0)
  {
    hide DestOf, TakeIdle;
    TakeCountsNothing(p, a, now);
  }

  lemma TakeCountsNothing(p: Pool, a: Addr, now: nat)
    ensures var m := TakeIdle(p, a, now).0.metrics;
      && m.hits == p.metrics.hits && m.reused == p.metrics.reused
      && m.misses == p.metrics.misses && m.created == p.metrics.created
  {
    hide DestOf, PopFresh;
  }

  /** A pool that is switched off hands on what was connected and keeps nothing. */
  lemma DisabledPoolIsBypassed(p: Pool, a: Addr, s: Stream, hint: Hint, now: nat, connected: Option<Stream>, victim: Option<Addr>)
    requires !p.config.enabled
    ensures Get(p, a, now, connected) == (p, connected)
    ensures Put(p, a, s, hint, now, victim) == p && Release(p, a) == p
  {}
}
