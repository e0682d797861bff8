/**
 * One proxied connection in its surroundings: the relay's two directions take their bandwidth from the
 * allocator, which other transfers share, and hand their reports to the session manager, which other
 * tasks use and which can cancel the relay's token. All three interleave freely.
 */
module Proxy {
  import opened Basics
  import opened Traffic
  import opened Updates
  import FairShare
  import R = Relay
  import H = Htb
  import SR = SessionRaces

  datatype Proxy = Proxy(relay: R.Relay, engine: H.Engine, world: SR.World, id: Id, user: H.User,
                         configured: nat, trace: seq<R.Event>)

  datatype Event =
    | Io(d: R.Direction, io: R.Io)
    | Bandwidth(h: H.Event)
    | Manager(m: SR.Event)

  /** The directions' identities as transfers and as updaters of the session. */
  function TaskId(d: R.Direction): Tid { if d.Upload? then 0 else 1 }

  predicate Reserved(t: Tid) { t <= 1 }

  function Relayed(p: Proxy, e: R.Event): Proxy { p.(relay := R.Next(p.relay, e), trace := p.trace + [e]) }

  /** What sockets and the loop itself do to a direction; it asks for bandwidth and hands over reports on the way. */
  function NextIo(p: Proxy, d: R.Direction, io: R.Io): (q: Proxy)
    requires FairShare.WellFormed(p.engine.config)
    ensures q.engine.config == p.engine.config
  {
    if io.Allocated? || io.AllocationFails? || TaskId(d) in p.world.tasks then p
    else
      var t := R.TaskOf(p.relay, d);
      var q := Relayed(p, R.Step(d, io));
      var reports := R.Reports(t, d, io);
      if reports != [] then q.(world := SR.Next(p.world, SR.Update(TaskId(d), p.id, reports[0])))
      else if t.phase.AtLoop? && R.TaskOf(q.relay, d).phase.Allocating?
      then
        var ask := H.Allocate(TaskId(d), p.user, |R.TaskOf(q.relay, d).phase.data|);
        H.NextKeepsConfig(p.engine, ask);
        q.(engine := H.Next(p.engine, ask))
      else q
  }

  /** What the allocator's answer is to the relay. */
  function AnswerOf(reply: H.Reply): R.Io { if reply.Granted? then R.Allocated else R.AllocationFails }

  /** A step of the allocator; a direction whose transfer is over goes on with the reply. */
  function NextBandwidth(p: Proxy, e: H.Event): Proxy
    requires FairShare.WellFormed(p.engine.config)
  {
    if (e.Allocate? || e.Probe?) && Reserved(e.tid) then p
    else
      var h := H.Next(p.engine, e);
      var q := p.(engine := h);
      if e.Proceed? && Reserved(e.tid) && e.tid in p.engine.tasks && e.tid !in h.tasks && h.done != []
      then Relayed(q, R.Step(if e.tid == 0 then R.Upload else R.Download, AnswerOf(h.done[|h.done| - 1].reply)))
      else q
  }

  /** A task of the manager's other callers may start: the session's traffic is the relay's alone. */
  predicate Foreign(p: Proxy, e: SR.Event)
  {
    match e
    case Open(t, _) => !Reserved(t)
    case Close(t, _, _) => !Reserved(t)
    case Terminate(t, _, _) => !Reserved(t)
    case Update(t, id, _) => !Reserved(t) && id != p.id
    case _ => true
  }

  /** A step of the session manager; the token it cancels for this session is the relay's. */
  function NextManager(p: Proxy, e: SR.Event): (q: Proxy)
    ensures q.engine == p.engine && q.id == p.id
  {
    if !Foreign(p, e) then p
    else
      var q := p.(world := SR.Next(p.world, e));
      if p.id in q.world.cancelled && p.id !in p.world.cancelled then Relayed(q, R.Cancel) else q
  }

  function Next(p: Proxy, e: Event): Proxy
    requires FairShare.WellFormed(p.engine.config)
  {
    match e
    case Io(d, io) => NextIo(p, d, io)
    case Bandwidth(h) => NextBandwidth(p, h)
    case Manager(m) => NextManager(p, m)
  }

  // ----- the relay and the allocator -----

  /** A direction waits for bandwidth exactly while its transfer is under way. */
  ghost predicate Served(p: Proxy, d: R.Direction)
  {
    var phase := R.TaskOf(p.relay, d).phase;
    && (phase.Allocating? <==> TaskId(d) in p.engine.tasks)
    && (phase.Allocating? ==>
          var k := p.engine.tasks[TaskId(d)];
          !k.attempt.Probing? && k.user == p.user && k.bytes == |phase.data|)
  }

  ghost predicate Traced(p: Proxy)
  {
    && p.relay == R.Run(R.Start(p.configured), p.trace) && R.NoAllocationFails(p.trace)
    && p.configured <= MAX_U64
  }

  // ----- the relay and the session -----

  /** What a direction has handed over and the manager has not written yet. */
  function Handed(w: SR.World, t: Tid): Traffic
  {
    if t in w.tasks && w.tasks[t].Crediting? then w.tasks[t].u else NO_TRAFFIC
  }

  /** All that ever was handed over for this session. */
  function Balance(w: SR.World, id: Id): Traffic
  {
    Plus(Plus(Total(w.history.credited, id), Plus(Total(w.history.late, id), Total(w.history.missed, id))),
         Plus(Handed(w, 0), Handed(w, 1)))
  }

  ghost predicate Weighty(list: seq<Stamped>)
  {
    forall i :: 0 <= i < |list| ==> list[i].u.packetsSent + list[i].u.packetsReceived > 0
  }

  /** Only the two directions update this session, and they do nothing else in the manager. */
  ghost predicate Updaters(w: SR.World, id: Id)
  {
    && (forall t :: t in w.tasks && w.tasks[t].Crediting? && w.tasks[t].id == id ==> Reserved(t))
    && (forall t :: t in w.tasks && Reserved(t) ==> w.tasks[t].Crediting? && w.tasks[t].id == id)
    && (forall t :: t in w.tasks && Reserved(t) && w.tasks[t].Crediting? ==>
          w.tasks[t].u.packetsSent + w.tasks[t].u.packetsReceived > 0)
    && Weighty(Past(w.history.late, id)) && Weighty(Past(w.history.missed, id))
  }

  ghost predicate Inv(p: Proxy)
  {
    && Traced(p) && H.Inv(p.engine) && SR.Inv(p.world)
    && Served(p, R.Upload) && Served(p, R.Download)
    && Updaters(p.world, p.id) && Sum(p.relay.log) == Balance(p.world, p.id)
  }

  /** A session that is open and without traffic, a relay about to start, nothing else in the relay's name. */
  ghost predicate Ready(p: Proxy)
  {
    && p.configured <= MAX_U64 && p.relay == R.Start(p.configured) && p.trace == []
    && H.Inv(p.engine) && 0 !in p.engine.tasks && 1 !in p.engine.tasks
    && SR.Inv(p.world) && p.id in p.world.active && p.id !in p.world.cancelled
    && (forall t :: t in p.world.tasks ==> !Reserved(t) && !(p.world.tasks[t].Crediting? && p.world.tasks[t].id == p.id))
    && Past(p.world.history.credited, p.id) == Past(p.world.history.late, p.id) == Past(p.world.history.missed, p.id) == []
  }

  /** A session that has just been opened, with an allocator at rest, is such a start. */
  lemma OpenedIsReady(c: FairShare.Config, now: nat, s: SR.Session, user: H.User, configured: nat)
    requires FairShare.WellFormed(c) && configured <= MAX_U64 && s.traffic == NO_TRAFFIC
    ensures var w := SR.Run(SR.EMPTY, [SR.Open(2, s), SR.Step(2)]);
      Ready(Proxy(R.Start(configured), H.Init(c, now), w, s.id, user, configured, []))
  {
    SR.RunKeepsInv([SR.Open(2, s), SR.Step(2)]);
    H.InitInv(c, now);
    hide SR.Inv, H.Inv, R.Start, SR.Run;
    OpenedWorld(s);
  }

  lemma OpenedWorld(s: SR.Session)
    requires s.traffic == NO_TRAFFIC
    ensures var w := SR.Run(SR.EMPTY, [SR.Open(2, s), SR.Step(2)]);
      w.tasks == map[] && w.active == {s.id} && w.cancelled == {} && w.history == NOTHING
  {
    var es := [SR.Open(2, s), SR.Step(2)];
    assert es[..1] == [SR.Open(2, s)] && es[..1][..0] == [];
    assert SR.Run(SR.EMPTY, []) == SR.EMPTY;
    assert SR.Run(SR.EMPTY, es[..1]) == SR.Next(SR.EMPTY, SR.Open(2, s));
    assert SR.Run(SR.EMPTY, es) == SR.Next(SR.Next(SR.EMPTY, SR.Open(2, s)), SR.Step(2));
    hide SR.Run;
    var begun := SR.Next(SR.EMPTY, SR.Open(2, s));
    assert begun.tasks == map[2 := SR.Linking(s)] && begun.active == {} && begun.history == NOTHING;
  }

  lemma NothingHandedOver(w: SR.World, id: Id)
    requires forall t :: t in w.tasks ==> !Reserved(t) && !(w.tasks[t].Crediting? && w.tasks[t].id == id)
    requires Past(w.history.credited, id) == Past(w.history.late, id) == Past(w.history.missed, id) == []
    ensures Updaters(w, id) && Balance(w, id) == NO_TRAFFIC
  {
    hide Total, Plus;
    EmptyTotal(w.history.credited, id);
    EmptyTotal(w.history.late, id);
    EmptyTotal(w.history.missed, id);
    PlusNothing(NO_TRAFFIC);
  }

  lemma PlusNothing(a: Traffic)
    ensures Plus(a, NO_TRAFFIC) == a
  {}

  lemma EmptyTotal(lists: Lists, id: Id)
    requires Past(lists, id) == []
    ensures Total(lists, id) == NO_TRAFFIC
  {
    assert Amounts([]) == [];
  }

  lemma FreshIsServed(p: Proxy)
    requires p.relay == R.Start(p.configured) && 0 !in p.engine.tasks && 1 !in p.engine.tasks
    ensures Served(p, R.Upload) && Served(p, R.Download) && Sum(p.relay.log) == NO_TRAFFIC
  {}

  lemma NothingTraced(p: Proxy)
    requires p.configured <= MAX_U64 && p.relay == R.Start(p.configured) && p.trace == []
    ensures Traced(p)
  {
    hide R.Start;
  }

  lemma ReadyHasInv(p: Proxy)
    requires Ready(p)
    ensures Inv(p)
  {
    hide H.Inv, SR.Inv, Updaters, Balance, Served, R.Start, R.Run, Past;
    NothingHandedOver(p.world, p.id);
    FreshIsServed(p);
    NothingTraced(p);
  }

  // ----- steps of the relay -----

  lemma RelayedIsTraced(p: Proxy, e: R.Event)
    requires Traced(p) && e != R.Step(R.Upload, R.AllocationFails) && e != R.Step(R.Download, R.AllocationFails)
    ensures Traced(Relayed(p, e))
  {
    hide R.Next, R.Start;
    var trace := p.trace + [e];
    assert trace[..|p.trace|] == p.trace;
  }

  /** Only a read takes a direction to the allocator, and only its answer takes it away. */
  lemma AllocatesByReading(t: R.Task, interval: nat, io: R.Io)
    requires !io.Allocated? && !io.AllocationFails?
    ensures var u := R.TaskNext(t, interval, io);
      && (t.phase.Allocating? ==> u.phase == t.phase)
      && (!t.phase.Allocating? && u.phase.Allocating? ==> t.phase.AtLoop?)
      && (R.Reports(t, R.Upload, io) != [] || R.Reports(t, R.Download, io) != [] ==> !t.phase.AtLoop? && !u.phase.Allocating?)
  {}

  lemma AnswerEndsAllocating(t: R.Task, interval: nat, io: R.Io)
    requires t.phase.Allocating? && (io.Allocated? || io.AllocationFails?)
    ensures !R.TaskNext(t, interval, io).phase.Allocating?
  {}

  /** What a step of a direction does to the relay. */
  lemma RelaySteps(r: R.Relay, d: R.Direction, io: R.Io)
    ensures var r' := R.Next(r, R.Step(d, io));
      && (forall x :: x != d ==> R.TaskOf(r', x) == R.TaskOf(r, x))
      && (R.TaskOf(r', d) == R.TaskOf(r, d) || R.TaskOf(r', d) == R.TaskNext(R.TaskOf(r, d), r.interval, io))
      && (io.SeeCancel? || R.TaskOf(r', d) == R.TaskNext(R.TaskOf(r, d), r.interval, io))
      && r'.log == r.log + R.Reports(R.TaskOf(r, d), d, io)
  {
    hide R.TaskNext;
    assert io.SeeCancel? ==> R.Reports(R.TaskOf(r, d), d, io) == [];
    assert r.log + [] == r.log;
  }

  lemma OtherIsServed(p: Proxy, q: Proxy, d: R.Direction)
    requires Served(p, d) && R.TaskOf(q.relay, d) == R.TaskOf(p.relay, d) && q.user == p.user
    requires TaskId(d) in p.engine.tasks <==> TaskId(d) in q.engine.tasks
    requires TaskId(d) in p.engine.tasks ==> q.engine.tasks[TaskId(d)] == p.engine.tasks[TaskId(d)]
    ensures Served(q, d)
  {}

  function Other(d: R.Direction): R.Direction { if d.Upload? then R.Download else R.Upload }

  /** Asking for bandwidth starts a transfer of that many bytes. */
  lemma AllocateEnters(h: H.Engine, tid: Tid, user: H.User, bytes: nat)
    requires FairShare.WellFormed(h.config) && tid !in h.tasks
    ensures H.Next(h, H.Allocate(tid, user, bytes)).tasks == h.tasks[tid := H.Task(user, bytes, H.Global, H.First, [])]
  {
    H.EnterKeepsLogs(h, tid, H.Task(user, bytes, H.Global, H.First, []));
  }

  lemma IoServes(p: Proxy, d: R.Direction, io: R.Io)
    requires Served(p, R.Upload) && Served(p, R.Download) && FairShare.WellFormed(p.engine.config)
    ensures var q := NextIo(p, d, io);
      Served(q, R.Upload) && Served(q, R.Download)
  {
    hide R.Next, R.TaskNext, H.Next, SR.Next, R.Reports;
    var q := NextIo(p, d, io);
    if !io.Allocated? && !io.AllocationFails? && TaskId(d) !in p.world.tasks {
      var t := R.TaskOf(p.relay, d);
      RelaySteps(p.relay, d, io);
      AllocatesByReading(t, p.relay.interval, io);
      var u := R.TaskOf(q.relay, d);
      if R.Reports(t, d, io) == [] && t.phase.AtLoop? && u.phase.Allocating? {
        AllocateEnters(p.engine, TaskId(d), p.user, |u.phase.data|);
      }
      OtherIsServed(p, q, Other(d));
    }
  }

  lemma IoTraces(p: Proxy, d: R.Direction, io: R.Io)
    requires Traced(p) && FairShare.WellFormed(p.engine.config)
    ensures Traced(NextIo(p, d, io))
  {
    hide R.Next, H.Next, SR.Next, R.Run;
    if !io.Allocated? && !io.AllocationFails? && TaskId(d) !in p.world.tasks { RelayedIsTraced(p, R.Step(d, io)); }
  }

  /** A report is handed over: written down as missed, or held by the direction until it is written. */
  lemma HandingOver(w: SR.World, t: Tid, id: Id, u: Traffic)
    requires Reserved(t) && t !in w.tasks && Updaters(w, id) && u.packetsSent + u.packetsReceived > 0
    ensures var v := SR.Next(w, SR.Update(t, id, u));
      Updaters(v, id) && Balance(v, id) == Plus(Balance(w, id), u)
  {
    hide Total, Plus, Past;
    if id !in w.active {
      PutAdds(w.history.missed, id, Stamped(w.history.asked, u));
      WeightyPut(w.history.missed, id, Stamped(w.history.asked, u));
      RegroupMissed(Total(w.history.credited, id), Total(w.history.late, id), Total(w.history.missed, id),
                    Handed(w, 0), Handed(w, 1), u);
    } else {
      RegroupHanded(Total(w.history.credited, id), Total(w.history.late, id), Total(w.history.missed, id),
                    Handed(w, 0), Handed(w, 1), u);
    }
  }

  lemma WeightyPut(lists: Lists, id: Id, s: Stamped)
    requires Weighty(Past(lists, id)) && s.u.packetsSent + s.u.packetsReceived > 0
    ensures Weighty(Past(Put(lists, id, s), id))
  {}

  lemma RegroupMissed(a: Traffic, b: Traffic, c: Traffic, x: Traffic, y: Traffic, u: Traffic)
    ensures Plus(Plus(a, Plus(b, Plus(c, u))), Plus(x, y)) == Plus(Plus(Plus(a, Plus(b, c)), Plus(x, y)), u)
    ensures Plus(Plus(a, Plus(Plus(b, u), c)), Plus(x, y)) == Plus(Plus(Plus(a, Plus(b, c)), Plus(x, y)), u)
    ensures Plus(Plus(Plus(a, u), Plus(b, c)), Plus(x, y)) == Plus(Plus(Plus(a, Plus(b, c)), Plus(x, y)), u)
  {}

  lemma RegroupHanded(a: Traffic, b: Traffic, c: Traffic, x: Traffic, y: Traffic, u: Traffic)
    ensures x == NO_TRAFFIC ==> Plus(Plus(a, Plus(b, c)), Plus(u, y)) == Plus(Plus(Plus(a, Plus(b, c)), Plus(x, y)), u)
    ensures y == NO_TRAFFIC ==> Plus(Plus(a, Plus(b, c)), Plus(x, u)) == Plus(Plus(Plus(a, Plus(b, c)), Plus(x, y)), u)
  {}

  lemma IoBills(p: Proxy, d: R.Direction, io: R.Io)
    requires FairShare.WellFormed(p.engine.config)
    requires Updaters(p.world, p.id) && Sum(p.relay.log) == Balance(p.world, p.id)
    ensures var q := NextIo(p, d, io);
      Updaters(q.world, p.id) && Sum(q.relay.log) == Balance(q.world, p.id)
  {
    hide R.Next, H.Next, SR.Next, Updaters, Balance, Sum;
    if !io.Allocated? && !io.AllocationFails? && TaskId(d) !in p.world.tasks {
      var reports := R.Reports(R.TaskOf(p.relay, d), d, io);
      RelaySteps(p.relay, d, io);
      if reports != [] {
        assert reports == [reports[0]] && reports[0].packetsSent + reports[0].packetsReceived > 0;
        HandingOver(p.world, TaskId(d), p.id, reports[0]);
        SumSnoc(p.relay.log, reports[0]);
      } else {
        assert p.relay.log + reports == p.relay.log;
      }
    }
  }

  lemma IoKeepsInv(p: Proxy, d: R.Direction, io: R.Io)
    requires Inv(p)
    ensures FairShare.WellFormed(p.engine.config) && Inv(NextIo(p, d, io))
  {
    H.InvIsWellFormed(p.engine);
    IoTraces(p, d, io);
    IoServes(p, d, io);
    IoBills(p, d, io);
    IoKeepsParts(p, d, io);
    hide H.Inv, SR.Inv, Updaters, Balance, Served, Traced, Sum, NextIo;
  }

  lemma IoKeepsParts(p: Proxy, d: R.Direction, io: R.Io)
    requires H.Inv(p.engine) && SR.Inv(p.world) && FairShare.WellFormed(p.engine.config)
    ensures var q := NextIo(p, d, io);
      H.Inv(q.engine) && SR.Inv(q.world) && q.id == p.id
  {
    hide H.Inv, SR.Inv, R.Next, H.Next, SR.Next;
    var t := R.TaskOf(p.relay, d);
    var u := R.TaskOf(R.Next(p.relay, R.Step(d, io)), d);
    var reports := R.Reports(t, d, io);
    if reports != [] { SR.NextKeepsInv(p.world, SR.Update(TaskId(d), p.id, reports[0])); }
    if u.phase.Allocating? { H.NextKeepsInv(p.engine, H.Allocate(TaskId(d), p.user, |u.phase.data|)); }
  }

  // ----- steps of the allocator -----

  function DirectionOf(tid: Tid): R.Direction { if tid == 0 then R.Upload else R.Download }

  /** The allocator's answer is always that the bytes were granted. */
  lemma AnswerIsAllocated(p: Proxy, tid: Tid)
    requires H.Inv(p.engine) && FairShare.WellFormed(p.engine.config) && Reserved(tid) && Served(p, DirectionOf(tid))
    requires tid in p.engine.tasks && tid !in H.Next(p.engine, H.Proceed(tid)).tasks
    ensures var h := H.Next(p.engine, H.Proceed(tid));
      h.done != [] && AnswerOf(h.done[|h.done| - 1].reply) == R.Allocated
  {
    hide H.Next, H.Inv;
    H.TransfersEndGranted(p.engine, H.Proceed(tid), tid);
  }

  lemma BandwidthServes(p: Proxy, e: H.Event, d: R.Direction)
    requires H.Inv(p.engine) && FairShare.WellFormed(p.engine.config) && Served(p, d)
    ensures Served(NextBandwidth(p, e), d)
  {
    hide H.Next, R.Next, H.Inv, R.TaskNext;
    var tid := TaskId(d);
    var q := NextBandwidth(p, e);
    if (e.Allocate? || e.Probe?) && Reserved(e.tid) {
    } else if e == H.Proceed(tid) && tid in p.engine.tasks {
      H.TransfersEndGranted(p.engine, e, tid);
      if tid !in H.Next(p.engine, e).tasks {
        AnswerIsAllocated(p, tid);
        RelaySteps(p.relay, d, R.Allocated);
        AnswerEndsAllocating(R.TaskOf(p.relay, d), p.relay.interval, R.Allocated);
      }
    } else {
      if tid in p.engine.tasks { H.OthersStay(p.engine, e, tid); } else { H.StaysOut(p.engine, e, tid); }
      if e.Proceed? && Reserved(e.tid) {
        RelaySteps(p.relay, DirectionOf(e.tid), AnswerOf(H.Granted));
        if q.relay != p.relay { RelaySteps(p.relay, DirectionOf(e.tid), AnswerOf(q.engine.done[|q.engine.done| - 1].reply)); }
      }
      OtherIsServed(p, q, d);
    }
  }

  lemma BandwidthTraces(p: Proxy, e: H.Event)
    requires H.Inv(p.engine) && FairShare.WellFormed(p.engine.config) && Traced(p)
    requires Served(p, R.Upload) && Served(p, R.Download)
    ensures var q := NextBandwidth(p, e);
      Traced(q) && q.relay.log == p.relay.log
  {
    hide H.Next, R.Next, H.Inv, Served, Traced;
    if e.Proceed? && Reserved(e.tid) && e.tid in p.engine.tasks && e.tid !in H.Next(p.engine, e).tasks {
      AnswerIsAllocated(p, e.tid);
      var q := p.(engine := H.Next(p.engine, e));
      SameTrace(p, q);
      RelayedIsTraced(q, R.Step(DirectionOf(e.tid), R.Allocated));
      RelaySteps(p.relay, DirectionOf(e.tid), R.Allocated);
      assert p.relay.log + [] == p.relay.log;
    } else {
      SameTrace(p, NextBandwidth(p, e));
    }
  }

  lemma SameTrace(p: Proxy, q: Proxy)
    requires Traced(p) && q.relay == p.relay && q.trace == p.trace && q.configured == p.configured
    ensures Traced(q)
  {}

  lemma BandwidthKeepsInv(p: Proxy, e: H.Event)
    requires Inv(p)
    ensures FairShare.WellFormed(p.engine.config) && Inv(NextBandwidth(p, e))
  {
    H.InvIsWellFormed(p.engine);
    BandwidthTraces(p, e);
    BandwidthServes(p, e, R.Upload);
    BandwidthServes(p, e, R.Download);
    H.NextKeepsInv(p.engine, e);
    hide H.Inv, H.Next, SR.Inv, Updaters, Balance, Served, Traced, Sum, R.Next;
  }

  // ----- steps of the manager -----

  /** As far as this session is concerned nothing has happened. */
  ghost predicate Aside(w: SR.World, v: SR.World, id: Id)
  {
    && (forall t :: Reserved(t) ==> (t in v.tasks <==> t in w.tasks))
    && (forall t :: Reserved(t) && t in w.tasks ==> v.tasks[t] == w.tasks[t])
    && (forall t :: t in v.tasks && v.tasks[t].Crediting? && v.tasks[t].id == id ==> t in w.tasks && v.tasks[t] == w.tasks[t])
    && Past(v.history.credited, id) == Past(w.history.credited, id) && Past(v.history.late, id) == Past(w.history.late, id)
    && Past(v.history.missed, id) == Past(w.history.missed, id)
  }

  lemma AsideKeepsBalance(w: SR.World, v: SR.World, id: Id)
    requires Updaters(w, id) && Aside(w, v, id)
    ensures Updaters(v, id) && Balance(v, id) == Balance(w, id)
  {
    hide Past, Balance, Weighty;
    assert Handed(v, 0) == Handed(w, 0) && Handed(v, 1) == Handed(w, 1);
    SameTotals(w, v, id);
  }

  lemma SameHistoryIsAside(w: SR.World, v: SR.World, t: Tid, id: Id)
    requires v.history == w.history && !Reserved(t)
    requires forall t1 :: t1 != t ==> (t1 in v.tasks <==> t1 in w.tasks)
    requires forall t1 :: t1 != t && t1 in w.tasks ==> v.tasks[t1] == w.tasks[t1]
    requires t in v.tasks ==> (t in w.tasks && v.tasks[t] == w.tasks[t]) || !v.tasks[t].Crediting? || v.tasks[t].id != id
    ensures Aside(w, v, id)
  {
    hide Past;
  }

  lemma StartIsAside(w: SR.World, e: SR.Event, id: Id)
    requires !e.Step?
    requires !e.Reject? ==> !Reserved(e.t)
    requires e.Update? ==> e.id != id
    ensures Aside(w, SR.Next(w, e), id)
  {
    hide Past, Aside;
    if e.Update? {
      UpdateIsAside(w, e.t, e.id, e.u, id);
      hide SR.Next;
    } else {
      SameHistoryIsAside(w, SR.Next(w, e), if e.Reject? then 2 else e.t, id);
    }
  }

  lemma UpdateIsAside(w: SR.World, t: Tid, other: Id, u: Traffic, id: Id)
    requires !Reserved(t) && other != id
    ensures Aside(w, SR.Next(w, SR.Update(t, other, u)), id)
  {
    hide Past, Miss, Issue;
    HistoryIsAside(w.history, t, other, u, id);
  }

  lemma HistoryIsAside(h: History, t: Tid, other: Id, u: Traffic, id: Id)
    requires other != id
    ensures var m, i := Miss(h, other, u), Issue(h, t);
      && m.credited == i.credited == h.credited && m.late == i.late == h.late && i.missed == h.missed
      && Past(m.missed, id) == Past(h.missed, id)
  {
    PutAdds(h.missed, other, Stamped(h.asked, u));
  }

  lemma StartKeepsBalance(w: SR.World, e: SR.Event, id: Id)
    requires Updaters(w, id) && !e.Step?
    requires !e.Reject? ==> !Reserved(e.t)
    requires e.Update? ==> e.id != id
    ensures var v := SR.Next(w, e);
      Updaters(v, id) && Balance(v, id) == Balance(w, id)
  {
    hide SR.Next, Updaters, Balance, Aside;
    StartIsAside(w, e, id);
    AsideKeepsBalance(w, SR.Next(w, e), id);
  }

  lemma AdvanceIsAside(w: SR.World, t: Tid, id: Id)
    requires Updaters(w, id) && t in w.tasks && SR.LinkedTo(w, w.tasks[t])
    requires !(w.tasks[t].Crediting? && w.tasks[t].id == id)
    ensures Aside(w, SR.Advance(w, t, w.tasks[t]), id)
  {
    var v, pc := SR.Advance(w, t, w.tasks[t]), w.tasks[t];
    SR.HistoryEffects(w, t);
    SR.OthersStay(w, t);
    SR.KeepsRecords(w, t);
    hide SR.Advance, SR.LinkedTo;
    if pc.Crediting? {
      PutAdds(w.history.late, pc.id, Stamped(pc.k, pc.u));
      PutAdds(w.history.credited, pc.id, Stamped(pc.k, pc.u));
      hide Past;
    } else {
      hide Past, Aside;
      SameHistoryIsAside(w, v, t, id);
    }
  }

  /** A direction's report is written. */
  lemma WritingKeepsBalance(w: SR.World, t: Tid, id: Id)
    requires Updaters(w, id) && t in w.tasks && SR.LinkedTo(w, w.tasks[t])
    requires w.tasks[t].Crediting? && w.tasks[t].id == id
    ensures var v := SR.Advance(w, t, w.tasks[t]);
      Updaters(v, id) && Balance(v, id) == Balance(w, id)
  {
    hide SR.Advance, Plus, Total, Past, Balance, SR.LinkedTo, Settle, Weighty;
    var v, pc := SR.Advance(w, t, w.tasks[t]), w.tasks[t];
    SR.HistoryEffects(w, t);
    SR.OthersStay(w, t);
    SR.KeepsRecords(w, t);
    SettledTotals(w.history, id, pc.k, pc.u, id in w.sealed);
    UpdaterLeaves(w, v, t, id);
    hide Updaters;
    WrittenKeepsBalance(w, v, t, id);
  }

  lemma UpdaterLeaves(w: SR.World, v: SR.World, t: Tid, id: Id)
    requires Updaters(w, id) && t in w.tasks && w.tasks[t].Crediting? && w.tasks[t].id == id && t !in v.tasks
    requires forall t1 :: t1 != t ==> (t1 in v.tasks <==> t1 in w.tasks)
    requires forall t1 :: t1 != t && t1 in w.tasks ==> v.tasks[t1] == w.tasks[t1]
    requires Weighty(Past(v.history.late, id)) && v.history.missed == w.history.missed
    ensures Updaters(v, id) && Reserved(t) && Handed(v, 1 - t) == Handed(w, 1 - t)
  {
    hide Weighty, Past;
  }

  lemma SettledTotals(h: History, id: Id, k: nat, u: Traffic, sealed: bool)
    requires Weighty(Past(h.late, id)) && u.packetsSent + u.packetsReceived > 0
    ensures var h' := Settle(h, id, k, u, sealed);
      && h'.missed == h.missed && Weighty(Past(h'.late, id))
      && (|| (Total(h'.credited, id) == Plus(Total(h.credited, id), u) && Total(h'.late, id) == Total(h.late, id))
          || (Total(h'.late, id) == Plus(Total(h.late, id), u) && Total(h'.credited, id) == Total(h.credited, id)))
  {
    PutAdds(h.late, id, Stamped(k, u));
    PutAdds(h.credited, id, Stamped(k, u));
    hide Total, Plus;
  }

  lemma AdvanceKeepsBalance(w: SR.World, t: Tid, id: Id)
    requires Updaters(w, id) && t in w.tasks && SR.LinkedTo(w, w.tasks[t])
    ensures var v := SR.Advance(w, t, w.tasks[t]);
      Updaters(v, id) && Balance(v, id) == Balance(w, id)
  {
    hide SR.Advance, Updaters, Balance, Aside, SR.LinkedTo;
    if w.tasks[t].Crediting? && w.tasks[t].id == id {
      WritingKeepsBalance(w, t, id);
    } else {
      AdvanceIsAside(w, t, id);
      AsideKeepsBalance(w, SR.Advance(w, t, w.tasks[t]), id);
    }
  }

  lemma SameTotals(w: SR.World, v: SR.World, id: Id)
    requires Past(v.history.credited, id) == Past(w.history.credited, id) && Past(v.history.late, id) == Past(w.history.late, id)
    requires Past(v.history.missed, id) == Past(w.history.missed, id)
    requires Handed(v, 0) == Handed(w, 0) && Handed(v, 1) == Handed(w, 1)
    ensures Balance(v, id) == Balance(w, id)
  {
    hide Plus, Past;
  }

  /** What was handed over is now in one of the lists. */
  lemma WrittenKeepsBalance(w: SR.World, v: SR.World, t: Tid, id: Id)
    requires Reserved(t) && t in w.tasks && w.tasks[t].Crediting? && t !in v.tasks
    requires Handed(v, 1 - t) == Handed(w, 1 - t) && v.history.missed == w.history.missed
    requires var u := w.tasks[t].u;
      || (Total(v.history.credited, id) == Plus(Total(w.history.credited, id), u)
          && Total(v.history.late, id) == Total(w.history.late, id))
      || (Total(v.history.late, id) == Plus(Total(w.history.late, id), u)
          && Total(v.history.credited, id) == Total(w.history.credited, id))
    ensures Balance(v, id) == Balance(w, id)
  {
    hide Total, Plus;
    var u := w.tasks[t].u;
    var a, b, c := Total(w.history.credited, id), Total(w.history.late, id), Total(w.history.missed, id);
    RegroupMissed(a, b, c, Handed(v, 0), Handed(v, 1), u);
    RegroupHanded(a, b, c, Handed(v, 0), Handed(v, 1), u);
  }

  lemma ManagerBills(p: Proxy, e: SR.Event)
    requires SR.Inv(p.world) && Updaters(p.world, p.id) && Foreign(p, e)
    ensures var v := SR.Next(p.world, e);
      Updaters(v, p.id) && Balance(v, p.id) == Balance(p.world, p.id)
  {
    hide Updaters, Balance, SR.Advance;
    if !e.Step? {
      StartKeepsBalance(p.world, e, p.id);
      hide SR.Next;
    } else if e.t in p.world.tasks {
      assert SR.LinkedTo(p.world, p.world.tasks[e.t]);
      hide SR.Inv;
      AdvanceKeepsBalance(p.world, e.t, p.id);
    }
  }

  lemma CancelSteps(r: R.Relay)
    ensures var r' := R.Next(r, R.Cancel);
      r'.up == r.up && r'.down == r.down && r'.log == r.log
  {}

  lemma ManagerKeepsInv(p: Proxy, e: SR.Event)
    requires Inv(p)
    ensures Inv(NextManager(p, e))
  {
    if Foreign(p, e) {
      ManagerBills(p, e);
      SR.NextKeepsInv(p.world, e);
      hide H.Inv, SR.Inv, SR.Next, R.Next, Updaters, Balance, Sum, Traced;
      var q := p.(world := SR.Next(p.world, e));
      SameTrace(p, q);
      RelayedIsTraced(q, R.Cancel);
      CancelSteps(p.relay);
      OtherIsServed(p, NextManager(p, e), R.Upload);
      OtherIsServed(p, NextManager(p, e), R.Download);
    }
  }

  // ----- while the session is active -----

  /** As long as the session is active no report has been late or missed. */
  ghost predicate OnTime(w: SR.World, id: Id)
  {
    id in w.records && (id in w.active ==> Past(w.history.late, id) == [] && Past(w.history.missed, id) == [])
  }

  lemma StartKeepsOnTime(w: SR.World, e: SR.Event, id: Id)
    requires OnTime(w, id) && !e.Step?
    ensures OnTime(SR.Next(w, e), id)
  {
    if e.Update? { PutAdds(w.history.missed, e.id, Stamped(w.history.asked, e.u)); }
    hide Past;
  }

  lemma AdvanceKeepsOnTime(w: SR.World, t: Tid, id: Id)
    requires OnTime(w, id) && SR.RecordsKept(w) && t in w.tasks && SR.LinkedTo(w, w.tasks[t])
    ensures OnTime(SR.Advance(w, t, w.tasks[t]), id)
  {
    var pc := w.tasks[t];
    SR.ActiveEffects(w, t);
    SR.HistoryEffects(w, t);
    SR.KeepsRecords(w, t);
    if pc.Crediting? { PutAdds(w.history.late, pc.id, Stamped(pc.k, pc.u)); }
    hide SR.Advance, Past;
  }

  lemma StepKeepsOnTime(w: SR.World, e: SR.Event, id: Id)
    requires OnTime(w, id) && SR.Inv(w)
    ensures OnTime(SR.Next(w, e), id)
  {
    if !e.Step? {
      StartKeepsOnTime(w, e, id);
      hide SR.Next;
    } else if e.t in w.tasks {
      assert SR.LinkedTo(w, w.tasks[e.t]);
      AdvanceKeepsOnTime(w, e.t, id);
      hide SR.Advance;
    }
    hide OnTime, SR.Inv;
  }

  lemma NextKeepsOnTime(p: Proxy, e: Event)
    requires Inv(p) && OnTime(p.world, p.id) && FairShare.WellFormed(p.engine.config)
    ensures OnTime(Next(p, e).world, p.id)
  {
    hide OnTime, SR.Inv, SR.Next, H.Next, R.Next, H.Inv, Balance, Updaters;
    match e
    case Io(d, io) =>
      var reports := R.Reports(R.TaskOf(p.relay, d), d, io);
      if reports != [] { StepKeepsOnTime(p.world, SR.Update(TaskId(d), p.id, reports[0]), p.id); }
    case Bandwidth(h) =>
    case Manager(m) => StepKeepsOnTime(p.world, m, p.id);
  }

  // ----- every run -----

  lemma NextKeepsInv(p: Proxy, e: Event)
    requires Inv(p)
    ensures FairShare.WellFormed(p.engine.config) && Inv(Next(p, e))
  {
    H.InvIsWellFormed(p.engine);
    match e
    case Io(d, io) => IoKeepsInv(p, d, io);
    case Bandwidth(h) => BandwidthKeepsInv(p, h);
    case Manager(m) => ManagerKeepsInv(p, m);
  }

  lemma NextKeepsConfig(p: Proxy, e: Event)
    requires FairShare.WellFormed(p.engine.config)
    ensures var q := Next(p, e);
      q.engine.config == p.engine.config && q.id == p.id && q.configured == p.configured
  {
    hide R.Next, SR.Next, H.Next;
    match e
    case Io(d, io) =>
      var u := R.TaskOf(R.Next(p.relay, R.Step(d, io)), d);
      if u.phase.Allocating? { H.NextKeepsConfig(p.engine, H.Allocate(TaskId(d), p.user, |u.phase.data|)); }
    case Bandwidth(h) => H.NextKeepsConfig(p.engine, h);
    case Manager(m) =>
  }

  function Run(p: Proxy, es: seq<Event>): Proxy
    requires FairShare.WellFormed(p.engine.config)
    decreases |es|
  {
    if es == [] then p
    else
      NextKeepsConfig(p, es[0]);
      Run(Next(p, es[0]), es[1..])
  }

  lemma {:induction false} RunKeepsInv(p: Proxy, es: seq<Event>)
    requires Inv(p) && OnTime(p.world, p.id) && FairShare.WellFormed(p.engine.config)
    ensures var q := Run(p, es);
      Inv(q) && OnTime(q.world, q.id) && q.id == p.id && q.configured == p.configured
    decreases |es|
  {
    hide Inv, Next, OnTime;
    if es != [] {
      NextKeepsInv(p, es[0]);
      NextKeepsOnTime(p, es[0]);
      NextKeepsConfig(p, es[0]);
      RunKeepsInv(Next(p, es[0]), es[1..]);
    }
  }

  lemma Reaches(p: Proxy, es: seq<Event>)
    requires Ready(p)
    ensures FairShare.WellFormed(p.engine.config)
    ensures var q := Run(p, es);
      Inv(q) && OnTime(q.world, q.id) && q.id == p.id && q.configured == p.configured
  {
    ReadyHasInv(p);
    H.InvIsWellFormed(p.engine);
    ActiveHasARecord(p.world, p.id);
    hide Inv, H.Inv, SR.Inv;
    RunKeepsInv(p, es);
  }

  lemma ActiveHasARecord(w: SR.World, id: Id)
    requires SR.Inv(w) && id in w.active
    ensures id in w.records
  {}

  /**
   * Whatever sockets, schedulers, other transfers, rebalancing and the manager's other callers do: no
   * direction ever ends for want of bandwidth, at every exit its reports add up to exactly its
   * completed writes, and at every loop head fewer than one interval's packets are unreported.
   */
  lemma EveryWriteIsReported(p: Proxy, es: seq<Event>, d: R.Direction)
    requires Ready(p) && FairShare.WellFormed(p.engine.config)
    requires R.Unsaturated(|R.TaskOf(Run(p, es).relay, d).delivered|, R.Interval(p.configured))
    ensures var t := R.TaskOf(Run(p, es).relay, d);
      && t.phase != R.Ended(R.NoBandwidth)
      && (t.phase.Ended? ==> t.reportedBytes == |t.delivered| && t.reportedPackets == t.writes)
      && (t.phase.AtLoop? ==> 0 <= t.writes - t.reportedPackets < R.Interval(p.configured))
  {
    Reaches(p, es);
    var q := Run(p, es);
    hide Run, R.Run, H.Inv, SR.Inv, Updaters, Balance, Ready, R.Unsaturated;
    R.ReportedUnlessRefused(q.configured, q.trace, d);
    R.AllocationsSucceed(q.configured, q.trace, d);
  }

  // ----- what the session shows -----

  /** What went over the wire. */
  function Written(r: R.Relay): Traffic
  {
    Traffic(|r.up.delivered|, |r.down.delivered|, r.up.writes, r.down.writes)
  }

  /** Both directions have returned, and every update of theirs with them. */
  predicate Over(p: Proxy)
  {
    p.relay.up.phase.Ended? && p.relay.down.phase.Ended? && 0 !in p.world.tasks && 1 !in p.world.tasks
  }

  predicate BelowTheCap(p: Proxy)
  {
    IsU64(Written(p.relay))
  }

  lemma BelowTheCapIsUnsaturated(p: Proxy, d: R.Direction, interval: nat)
    requires BelowTheCap(p)
    ensures R.Unsaturated(|R.TaskOf(p.relay, d).delivered|, interval)
  {}

  /** When it is over, everything written has been credited, was late, or was missed. */
  lemma WrittenIsHandedOver(p: Proxy)
    requires Inv(p) && Over(p) && BelowTheCap(p)
    ensures var h := p.world.history;
      Written(p.relay) == Plus(Total(h.credited, p.id), Plus(Total(h.late, p.id), Total(h.missed, p.id)))
  {
    hide H.Inv, SR.Inv, Served, Updaters, Total, Plus, R.Run, R.Unsaturated, R.TaskInv;
    R.RunKeepsInv(p.configured, p.trace);
    R.RunKeepsInterval(p.configured, p.trace);
    BelowTheCapIsUnsaturated(p, R.Upload, p.relay.interval);
    BelowTheCapIsUnsaturated(p, R.Download, p.relay.interval);
    R.AllocationsSucceed(p.configured, p.trace, R.Upload);
    R.AllocationsSucceed(p.configured, p.trace, R.Download);
    R.ExitsAreExact(p.relay.up, p.relay.interval);
    R.ExitsAreExact(p.relay.down, p.relay.interval);
    PlusNothing(NO_TRAFFIC);
    var h := p.world.history;
    PlusNothing(Plus(Total(h.credited, p.id), Plus(Total(h.late, p.id), Total(h.missed, p.id))));
  }

  lemma {:induction false} WeightyTotal(list: seq<Stamped>)
    requires Weighty(list) && list != []
    ensures Sum(Amounts(list)).packetsSent + Sum(Amounts(list)).packetsReceived > 0
    decreases |list|
  {
    var init, last := list[..|list| - 1], list[|list| - 1];
    assert Amounts(list) == Amounts(init) + [last.u];
    SumSnoc(Amounts(init), last.u);
    if init != [] { WeightyTotal(init); }
  }

  /** Nothing was late or missed exactly if that comes to nothing. */
  lemma NothingLost(w: SR.World, id: Id)
    requires Updaters(w, id)
    ensures Past(w.history.late, id) == [] && Past(w.history.missed, id) == []
       <==> Plus(Total(w.history.late, id), Total(w.history.missed, id)) == NO_TRAFFIC
  {
    hide Past, Total, Plus;
    NothingListed(w.history.late, id);
    NothingListed(w.history.missed, id);
    BothNothing(Total(w.history.late, id), Total(w.history.missed, id));
  }

  lemma NothingListed(lists: Lists, id: Id)
    requires Weighty(Past(lists, id))
    ensures Past(lists, id) == [] <==> Total(lists, id) == NO_TRAFFIC
  {
    hide Past, Amounts, Sum;
    if Past(lists, id) == [] { EmptyTotal(lists, id); } else { WeightyTotal(Past(lists, id)); }
  }

  lemma BothNothing(a: Traffic, b: Traffic)
    ensures Plus(a, b) == NO_TRAFFIC <==> a == NO_TRAFFIC && b == NO_TRAFFIC
  {
    var c := Plus(a, b);
    assert c.bytesSent == 0 <==> a.bytesSent == 0 && b.bytesSent == 0;
    assert c.bytesReceived == 0 <==> a.bytesReceived == 0 && b.bytesReceived == 0;
    assert c.packetsSent == 0 <==> a.packetsSent == 0 && b.packetsSent == 0;
    assert c.packetsReceived == 0 <==> a.packetsReceived == 0 && b.packetsReceived == 0;
    hide Plus;
  }

  lemma CappedParts(whole: Traffic, a: Traffic, rest: Traffic)
    requires IsU64(whole) && whole == Plus(a, rest)
    ensures Capped(a) == a && (a == whole <==> rest == NO_TRAFFIC)
  {}

  /**
   * The filed record shows what was credited, and that is all that went over the wire if and only if
   * every report found the session active and was written before the record was sealed.
   */
  lemma BilledInFullExactlyIfOnTime(p: Proxy, es: seq<Event>, i: nat)
    requires Ready(p) && FairShare.WellFormed(p.engine.config)
    requires var q := Run(p, es);
      Over(q) && BelowTheCap(q) && i < |q.world.closed| && q.world.closed[i].id == p.id
    ensures var q := Run(p, es);
      var h := q.world.history;
      && q.world.closed[i].traffic == Total(h.credited, p.id)
      && Written(q.relay) == Plus(Total(h.credited, p.id), Plus(Total(h.late, p.id), Total(h.missed, p.id)))
      && (q.world.closed[i].traffic == Written(q.relay) <==> Past(h.late, p.id) == [] && Past(h.missed, p.id) == [])
  {
    Reaches(p, es);
    var q := Run(p, es);
    var h := q.world.history;
    hide Run, Ready, H.Inv, Served, Traced, Balance, Written, Total, Plus, Bill, Past, Capped, Over;
    WrittenIsHandedOver(q);
    NothingLost(q.world, q.id);
    CappedParts(Written(q.relay), Total(h.credited, q.id), Plus(Total(h.late, q.id), Total(h.missed, q.id)));
    FiledIsBilled(q.world, i);
    BillIsTheTotal(h.credited, q.id);
  }

  lemma FiledIsBilled(w: SR.World, i: nat)
    requires SR.Inv(w) && i < |w.closed|
    ensures w.closed[i].traffic == Bill(w.history.credited, w.closed[i].id)
  {
    hide SR.OnePlace, SR.Controlled, SR.Fated, Bill;
  }

  /** In particular if the session is still active when the relay is over: its record shows everything. */
  lemma BilledInFullIfStillActive(p: Proxy, es: seq<Event>)
    requires Ready(p) && FairShare.WellFormed(p.engine.config)
    requires var q := Run(p, es);
      Over(q) && BelowTheCap(q) && p.id in q.world.active
    ensures var q := Run(p, es);
      p.id in q.world.records && q.world.records[p.id].traffic == Written(q.relay)
  {
    Reaches(p, es);
    var q := Run(p, es);
    var h := q.world.history;
    hide Run, Ready, H.Inv, Served, Traced, Balance, Written, Total, Plus, Bill, Past, Capped, Over;
    WrittenIsHandedOver(q);
    NothingLost(q.world, q.id);
    CappedParts(Written(q.relay), Total(h.credited, q.id), Plus(Total(h.late, q.id), Total(h.missed, q.id)));
    OpenIsBilled(q.world, q.id);
    BillIsTheTotal(h.credited, q.id);
  }

  lemma OpenIsBilled(w: SR.World, id: Id)
    requires SR.Inv(w) && id in w.active
    ensures id in w.records && w.records[id].traffic == Bill(w.history.credited, id)
  {
    hide SR.OnePlace, SR.Fated, Bill, SR.ControlsNamed, SR.CutOff, SR.TasksLinked;
  }

  // ----- a session that is terminated -----

  function Managed(p: Proxy, t: Tid, n: nat): (q: Proxy)
    ensures q.engine == p.engine && q.id == p.id
  {
    if n == 0 then p else NextManager(Managed(p, t, n - 1), SR.Step(t))
  }

  /** The manager's steps reach the relay only by its token. */
  lemma {:induction false} ManagedSteps(p: Proxy, t: Tid, n: nat)
    ensures var q := Managed(p, t, n);
      && q.world == SR.Steps(p.world, t, n) && q.relay.up == p.relay.up && q.relay.interval == p.relay.interval
      && q.id == p.id && q.engine == p.engine && (p.relay.cancelled ==> q.relay.cancelled)
    decreases n
  {
    hide SR.Next;
    if n > 0 { ManagedSteps(p, t, n - 1); }
  }

  /** The termination's first step cancels the relay's token. */
  lemma SignalCancels(p: Proxy, t: Tid)
    requires t in p.world.tasks && p.world.tasks[t].Signalling? && p.world.tasks[t].id == p.id
    requires p.id in p.world.controls && p.id !in p.world.cancelled
    ensures var q := NextManager(p, SR.Step(t));
      && q.relay == p.relay.(cancelled := true) && q.id == p.id && q.engine == p.engine
      && q.world == p.world.(cancelled := p.world.cancelled + {p.id},
                             tasks := p.world.tasks[t := SR.Unlinking(p.id, p.world.tasks[t].why)])
  {}

  /** After its termination, a session's relay sees the token and flushes; the report is missed. */
  lemma FlushesAfterCancel(p: Proxy)
    requires FairShare.WellFormed(p.engine.config) && p.relay.cancelled && p.relay.up.phase.AtLoop? && p.relay.up.pendingPackets > 0
    requires 0 !in p.world.tasks && p.id !in p.world.active
    ensures var seen := NextIo(p, R.Upload, R.SeeCancel);
      && seen.engine == p.engine
      && NextIo(seen, R.Upload, R.Flush).world
         == p.world.(history := Miss(p.world.history, p.id,
                                     R.ReportOf(R.Upload, p.relay.up.pendingBytes, p.relay.up.pendingPackets)))
  {
    var seen := NextIo(p, R.Upload, R.SeeCancel);
    assert seen.relay.up == p.relay.up.(phase := R.Flushing(R.Leave(true))) && seen.world == p.world && seen.id == p.id;
    hide Miss, R.TaskNext;
  }

  /**
   * The cancelled run: a session is terminated while its upload has packets that it has not reported.
   * The record is filed without them, and the report that the cancellation provokes is missed.
   */
  lemma TerminationLosesThePending(p: Proxy, t: Tid, why: SR.Why)
    requires FairShare.WellFormed(p.engine.config) && SR.Inv(p.world)
    requires p.relay.up.phase.AtLoop? && p.relay.up.pendingPackets > 0 && 0 !in p.world.tasks
    requires p.id in p.world.active && p.id in p.world.controls && p.id !in p.world.cancelled
    requires !Reserved(t) && t !in p.world.tasks
    ensures var closed := Managed(NextManager(NextManager(p, SR.Terminate(t, p.id, why)), SR.Step(t)), t, 4);
      var seen := NextIo(closed, R.Upload, R.SeeCancel);
      var h, h' := p.world.history, NextIo(seen, R.Upload, R.Flush).world.history;
      && closed.engine == p.engine && seen.engine == p.engine
      && |closed.world.closed| == |p.world.closed| + 1
      && closed.world.closed[|p.world.closed|].id == p.id
      && closed.world.closed[|p.world.closed|].traffic == Bill(h.credited, p.id)
      && Past(h'.missed, p.id)
         == Past(h.missed, p.id) + [Stamped(h.asked, R.ReportOf(R.Upload, p.relay.up.pendingBytes, p.relay.up.pendingPackets))]
  {
    var begun := NextManager(p, SR.Terminate(t, p.id, why));
    OpenIsBilled(p.world, p.id);
    ActiveHasItsRecord(p.world, p.id);
    assert begun == p.(world := p.world.(tasks := p.world.tasks[t := SR.Signalling(p.id, why)]));
    hide SR.Inv, Bill, Past, SR.Next;
    SignalCancels(begun, t);
    var cut := NextManager(begun, SR.Step(t));
    hide NextManager;
    ManagedSteps(cut, t, 4);
    SR.ClosesInFour(cut.world, t, p.id, why);
    var closed := Managed(cut, t, 4);
    hide Managed, SR.Steps, NextIo, Miss;
    FlushesAfterCancel(closed);
    MissIsListed(p.world.history, p.id, R.ReportOf(R.Upload, p.relay.up.pendingBytes, p.relay.up.pendingPackets));
  }

  lemma ActiveHasItsRecord(w: SR.World, id: Id)
    requires SR.Inv(w) && id in w.active
    ensures id in w.records && w.records[id].id == id
  {}

  lemma MissIsListed(h: History, id: Id, u: Traffic)
    ensures Past(Miss(h, id, u).missed, id) == Past(h.missed, id) + [Stamped(h.asked, u)]
  {}
}
