/** The pool as an object, with the loops and the order of updates of its methods. */
module ConnectionPool {
  import opened Basics
  import opened Pool

  lemma CleanOneMore(p: Pool, order: seq<Addr>, a: Addr, now: nat)
    ensures CleanEach(p, order + [a], now) == Clean(CleanEach(p, order, now), a, now)
  {
    assert (order + [a])[..|order|] == order;
  }

  class ConnectionPool {
    const config: Config
    var idle: map<Addr, seq<Conn>>
    var totalIdle: int
    var metrics: Counters
    var dest: map<Addr, Counters>
    var active: map<Addr, nat>

    ghost function View(): Pool
      reads this
    {
      Pool(config, idle, totalIdle, metrics, dest, active)
    }

    constructor (config: Config)
      ensures View() == New(config)
    {
      this.config := config;
      idle, totalIdle, metrics, dest, active := map[], 0, ZERO, map[], map[];
    }

    /** One update of a global counter together with its destination's entry. */
    method Count(a: Addr, d: Counters)
      modifies this
      ensures View() == Counted(old(View()), a, d)
    {
      metrics := Plus(metrics, d);
      dest := dest[a := Plus(if a in dest then dest[a] else ZERO, d)];
    }

    method RecordExpiredCount(a: Addr, count: nat)
      modifies this
      ensures View() == RecordExpired(old(View()), a, count)
    {
      if count == 0 { return; }
      Count(a, ZERO.(expired := count));
      totalIdle := totalIdle - count;
    }

    method RecordEviction(v: Addr)
      modifies this
      ensures View() == RecordEvicted(old(View()), Some(v))
    {
      Count(v, ZERO.(evicted := 1));
      totalIdle := totalIdle - 1;
    }

    method IncrementActive(a: Addr)
      modifies `active
      ensures View() == Activate(old(View()), a)
    {
      active := active[a := (if a in active then active[a] else 0) + 1];
    }

    method DecrementActive(a: Addr)
      modifies `active
      ensures View() == Deactivate(old(View()), a)
    {
      if a in active {
        var previous := active[a];
        if previous <= 1 {
          active := active - {a};
        } else {
          active := active[a := previous - 1];
        }
      }
    }

    /** Pops from the newest end until an unexpired connection turns up. */
    method TryGetFromPool(a: Addr, now: nat) returns (stream: Option<Stream>)
      modifies this
      ensures (View(), stream) == TakeIdle(old(View()), a, now)
    {
      if a !in idle { return None; }
      stream := None;
      var list, expired := idle[a], 0;
      while list != []
        invariant var r := PopFresh(list, now, config.idleTimeout);
          r.(expired := r.expired + expired) == PopFresh(idle[a], now, config.idleTimeout)
        invariant View() == old(View()) && stream.None?
        decreases |list|
      {
        var conn := list[|list| - 1];
        list := list[..|list| - 1];
        if IsExpired(conn, now, config.idleTimeout) {
          expired := expired + 1;
        } else {
          stream := Some(conn.stream);
          break;
        }
      }
      idle := if list == [] then idle - {a} else idle[a := list];
      if stream.Some? { totalIdle := totalIdle - 1; }
      RecordExpiredCount(a, expired);
    }

    method GetStream(a: Addr, now: nat, connected: Option<Stream>) returns (stream: Option<Stream>)
      modifies this
      ensures (View(), stream) == Get(old(View()), a, now, connected)
    {
      if !config.enabled { return connected; }
      stream := TryGetFromPool(a, now);
      if stream.Some? {
        Count(a, ZERO.(hits := 1, reused := 1, inUse := 1));
        IncrementActive(a);
        return;
      }
      Count(a, ZERO.(misses := 1));
      if connected.Some? {
        Count(a, ZERO.(created := 1, inUse := 1));
        IncrementActive(a);
      }
      stream := connected;
    }

    /** The address whose list has the oldest head; ties go either way. */
    method OldestHead() returns (oldest: Option<Addr>)
      ensures oldest.Some? ==> IsOldestHead(View(), oldest.value)
      ensures oldest.None? ==> NoHeads(View())
    {
      oldest := None;
      var rest := idle.Keys;
      while rest != {}
        invariant rest <= idle.Keys
        invariant oldest.Some? ==> oldest.value in idle && idle[oldest.value] != []
        invariant forall b :: b in idle && b !in rest && idle[b] != [] ==>
          oldest.Some? && idle[oldest.value][0].createdAt <= idle[b][0].createdAt
        decreases rest
      {
        var b :| b in rest;
        rest := rest - {b};
        if idle[b] != [] && (oldest.None? || idle[b][0].createdAt < idle[oldest.value][0].createdAt) {
          oldest := Some(b);
        }
      }
    }

    method EvictOldest() returns (victim: Option<Addr>)
      modifies `idle
      ensures victim.Some? ==> IsOldestHead(old(View()), victim.value) && View() == DropHead(old(View()), victim.value)
      ensures victim.None? ==> NoHeads(old(View())) && View() == old(View())
    {
      victim := OldestHead();
      if victim.Some? {
        var list := idle[victim.value][1..];
        idle := if list == [] then idle - {victim.value} else idle[victim.value := list];
      }
    }

    method InsertStream(a: Addr, stream: Stream, now: nat) returns (inserted: bool, dropped: bool, victim: Option<Addr>)
      modifies this
      ensures dropped == !inserted == Full(old(View()), a)
      ensures MayEvict(old(View()), a, victim)
      ensures View() == Insert(old(View()), a, stream, now, victim)
    {
      inserted, dropped, victim := false, false, None;
      if a in idle && |idle[a]| >= config.maxIdlePerDest {
        dropped := true;
      }
      if !dropped {
        if totalIdle >= config.maxTotalIdle {
          victim := EvictOldest();
        }
        idle := idle[a := (if a in idle then idle[a] else []) + [Conn(stream, now, now)]];
        totalIdle := totalIdle + 1;
        inserted := true;
      }
    }

    method DecrementInUse(a: Addr)
      modifies this
      ensures View() == Returned(old(View()), a)
    {
      metrics := metrics.(inUse := SaturatingPred(metrics.inUse));
      var entry := if a in dest then dest[a] else ZERO;
      dest := dest[a := entry.(inUse := SaturatingPred(entry.inUse))];
    }

    method PutStream(a: Addr, stream: Stream, hint: Hint, now: nat) returns (victim: Option<Addr>)
      modifies this
      ensures config.enabled && hint.Reuse? ==> MayEvict(old(View()), a, victim)
      ensures View() == Put(old(View()), a, stream, hint, now, victim)
    {
      hide Plus, DestOf;
      victim := None;
      if !config.enabled { return; }
      match hint {
        case Reuse =>
          DecrementInUse(a);
          var inserted, dropped, evicted := InsertStream(a, stream, now);
          victim := evicted;
          if dropped { Count(a, ZERO.(drops := 1)); }
          if victim.Some? { RecordEviction(victim.value); }
          DecrementActive(a);
        case Refresh =>
          DecrementInUse(a);
          DecrementActive(a);
      }
    }

    method ReleaseStream(a: Addr)
      modifies this
      ensures View() == Release(old(View()), a)
    {
      if !config.enabled { return; }
      DecrementInUse(a);
      DecrementActive(a);
    }

    method Refresh(a: Addr, connected: Option<Stream>, now: nat) returns (victim: Option<Addr>)
      modifies this
      ensures connected.Some? ==> MayEvict(old(View()), a, victim)
      ensures View() == RefreshConnection(old(View()), a, connected, now, victim)
    {
      victim := None;
      if connected.None? { return; }
      Count(a, ZERO.(created := 1));
      var inserted, dropped, evicted := InsertStream(a, connected.value, now);
      victim := evicted;
      if dropped { Count(a, ZERO.(drops := 1)); }
      if victim.Some? { RecordEviction(victim.value); }
    }

    /** Keeps the unexpired connections of one destination. */
    method Retain(list: seq<Conn>, now: nat) returns (kept: seq<Conn>)
      ensures kept == Fresh(list, now, config.idleTimeout)
    {
      kept := [];
      var i := |list|;
      while i > 0
        invariant 0 <= i <= |list|
        invariant kept == Fresh(list[i..], now, config.idleTimeout)
      {
        i := i - 1;
        assert list[i..][1..] == list[i + 1..];
        if !IsExpired(list[i], now, config.idleTimeout) {
          kept := [list[i]] + kept;
        }
      }
      assert list[0..] == list;
    }

    /** Visits every destination once, in the order of the map; afterwards only unexpired connections are idle. */
    method CleanupExpired(now: nat) returns (ghost order: seq<Addr>)
      modifies this
      ensures View() == CleanEach(old(View()), order, now)
      ensures (set a | a in order) == old(idle).Keys
      ensures forall i, j :: 0 <= i < j < |order| ==> order[i] != order[j]
      ensures forall a :: a in idle ==> a in old(idle) && idle[a] == Fresh(old(idle)[a], now, config.idleTimeout) != []
      ensures forall a :: a in old(idle) && a !in idle ==> Fresh(old(idle)[a], now, config.idleTimeout) == []
    {
      hide CleanEach, Fresh, RecordExpired;
      CleanNone(now);
      order := [];
      var rest := idle.Keys;
      while rest != {}
        invariant rest <= idle.Keys <= old(idle).Keys
        invariant View() == CleanEach(old(View()), order, now)
        invariant (set a | a in order) == old(idle).Keys - rest
        invariant forall i, j :: 0 <= i < j < |order| ==> order[i] != order[j]
        invariant forall a :: a in rest ==> idle[a] == old(idle)[a]
        invariant forall a :: a in idle && a !in rest ==>
          idle[a] == Fresh(old(idle)[a], now, config.idleTimeout) != []
        invariant forall a :: a in old(idle) && a !in idle ==> Fresh(old(idle)[a], now, config.idleTimeout) == []
        decreases rest
      {
        var a :| a in rest;
        rest := rest - {a};
        CleanOneMore(old(View()), order, a, now);
        CleanDestination(a, now);
        assert (set x | x in order + [a]) == (set x | x in order) + {a};
        order := order + [a];
      }
    }

    lemma CleanNone(now: nat)
      ensures CleanEach(View(), [], now) == View()
    {}

    method CleanDestination(a: Addr, now: nat)
      requires a in idle
      modifies this
      ensures View() == Clean(old(View()), a, now)
      ensures var kept := Fresh(old(idle)[a], now, config.idleTimeout);
        idle == WithList(old(idle), a, kept)
    {
      var list := idle[a];
      var kept := Retain(list, now);
      FreshIsNoLonger(list, now, config.idleTimeout);
      idle := if kept == [] then idle - {a} else idle[a := kept];
      RecordExpiredCount(a, |list| - |kept|);
    }
  }
}
