/**
 * The session manager under concurrent callers. Table accesses and record locks are separate steps:
 * a session is linked, signalled, unlinked, sealed and filed by tasks that interleave freely, and a
 * traffic update holds on to the record it looked up.
 */
module SessionRaces {
  import opened Basics
  import opened Traffic
  import opened Updates
  import Sessions

  type Session = Sessions.Session
  type Status = Sessions.Status

  datatype Why = Why(reason: Option<string>, status: Status)

  /** Where a task stands inside an operation. */
  datatype Pc =
    | Linking(s: Session)
    | Signalling(id: Id, why: Why)
    | Unlinking(id: Id, why: Why)
    | Taking(id: Id, why: Why)
    | Sealing(id: Id, why: Why)
    | Filing(record: Session)
    | Crediting(id: Id, k: nat, u: Traffic)

  /** The table that lists a session, or the caller that is carrying it from one to the next. */
  datatype Place = WithTask(t: Tid) | InActive | InClosed(i: nat) | InRejected(i: nat)

  /**
   * The shared tables, the records behind the shared handles, and as history: where each issued
   * session went, which records were sealed, and what became of the updates.
   */
  datatype World = World(records: map<Id, Session>, active: set<Id>, closed: seq<Session>, rejected: seq<Session>,
                         controls: set<Id>, cancelled: set<Id>, tasks: map<Tid, Pc>,
                         place: map<Id, Place>, sealed: set<Id>, history: History)

  datatype Event =
    | Open(t: Tid, s: Session)
    | Reject(s: Session)
    | Close(t: Tid, id: Id, why: Why)
    | Terminate(t: Tid, id: Id, why: Why)
    | Update(t: Tid, id: Id, u: Traffic)
    | Step(t: Tid)

  const EMPTY := World(map[], {}, [], [], {}, {}, map[], map[], {}, NOTHING)

  function Goto(w: World, t: Tid, pc: Pc): World { w.(tasks := w.tasks[t := pc]) }

  function Leave(w: World, t: Tid): World { w.(tasks := w.tasks - {t}) }

  /** One step; identifiers are unique, and only sessions already linked can be closed. */
  function Next(w: World, e: Event): World
  {
    match e
    case Open(t, s) =>
      if t in w.tasks || s.id in w.place || s.traffic != NO_TRAFFIC then w
      else Goto(w.(controls := w.controls + {s.id}, place := w.place[s.id := WithTask(t)]), t, Linking(s))
    case Reject(s) =>
      if s.id in w.place then w else w.(rejected := w.rejected + [s], place := w.place[s.id := InRejected(|w.rejected|)])
    case Close(t, id, why) =>
      if t in w.tasks || id !in w.records then w else Goto(w, t, Unlinking(id, why))
    case Terminate(t, id, why) =>
      if t in w.tasks || id !in w.records then w else Goto(w, t, Signalling(id, why))
    case Update(t, id, u) =>
      if t in w.tasks then w
      else if id !in w.active then w.(history := Miss(w.history, id, u))
      else Goto(w.(history := Issue(w.history, t)), t, Crediting(id, w.history.asked, u))
    case Step(t) => if t in w.tasks then Advance(w, t, w.tasks[t]) else w
  }

  function Advance(w: World, t: Tid, pc: Pc): World
  {
    match pc
    case Linking(s) => Leave(w.(records := w.records[s.id := s], active := w.active + {s.id}, place := w.place[s.id := InActive]), t)
    case Signalling(id, why) =>
      Goto(if id in w.controls then w.(cancelled := w.cancelled + {id}) else w, t, Unlinking(id, why))
    case Unlinking(id, why) => Goto(w.(controls := w.controls - {id}), t, Taking(id, why))
    case Taking(id, why) =>
      if id !in w.active then Leave(w, t)
      else Goto(w.(active := w.active - {id}, place := w.place[id := WithTask(t)]), t, Sealing(id, why))
    case Sealing(id, why) =>
      if id !in w.records then w
      else
        var record := Sessions.Ended(w.records[id], why.reason, why.status);
        Goto(w.(records := w.records[id := record], sealed := w.sealed + {id}), t, Filing(record))
    case Filing(record) => Leave(w.(closed := w.closed + [record], place := w.place[record.id := InClosed(|w.closed|)]), t)
    case Crediting(id, k, u) =>
      if id !in w.records then w
      else
        var record := w.records[id];
        Leave(w.(records := w.records[id := record.(traffic := Credit(record.traffic, u))],
                 history := Settle(w.history, id, k, u, id in w.sealed)), t)
  }

  function Run(w: World, es: seq<Event>): World
  {
    if es == [] then w else Next(Run(w, es[..|es| - 1]), es[|es| - 1])
  }

  // ----- where a session is -----

  /** The caller is carrying this session from one table to another. */
  predicate Carries(pc: Pc, id: Id)
  {
    match pc
    case Linking(s) => s.id == id
    case Sealing(i, _) => i == id
    case Filing(record) => record.id == id
    case _ => false
  }

  ghost predicate IsAt(w: World, id: Id, p: Place)
  {
    match p
    case WithTask(t) => t in w.tasks && Carries(w.tasks[t], id)
    case InActive => id in w.active
    case InClosed(i) => i < |w.closed| && w.closed[i].id == id
    case InRejected(i) => i < |w.rejected| && w.rejected[i].id == id
  }

  /** A session that was issued is where it went and nowhere else; others are nowhere. */
  ghost predicate OnePlace(w: World)
  {
    forall id: Id, p: Place :: IsAt(w, id, p) <==> id in w.place && w.place[id] == p
  }

  // ----- records and controls -----

  ghost predicate LinkedTo(w: World, pc: Pc)
  {
    match pc
    case Linking(s) => s.id !in w.records && s.traffic == NO_TRAFFIC && s.id in w.controls
    case Filing(record) => record.id in w.records && record.id in w.sealed
    case Sealing(id, _) => id in w.records && w.records[id].id == id && id !in w.sealed + w.controls + w.active
    case Taking(id, _) => id in w.records && id !in w.controls
    case Signalling(id, _) => id in w.records
    case Unlinking(id, _) => id in w.records
    case Crediting(id, _, _) => id in w.records
  }

  ghost predicate IsLinking(w: World, id: Id)
  {
    id in w.place && w.place[id].WithTask? && w.place[id].t in w.tasks && w.tasks[w.place[id].t].Linking?
  }

  ghost predicate IsTaking(w: World, id: Id) { exists t :: t in w.tasks && w.tasks[t].Taking? && w.tasks[t].id == id }

  ghost predicate ControlsNamed(w: World)
  {
    forall id :: id in w.controls ==> id in w.active || IsLinking(w, id)
  }

  /** An active session without a control entry is one that a closer has already cut off. */
  ghost predicate CutOff(w: World)
  {
    forall id :: id in w.active && id !in w.controls ==> IsTaking(w, id)
  }

  ghost predicate TasksLinked(w: World) { forall t :: t in w.tasks ==> LinkedTo(w, w.tasks[t]) }

  ghost predicate RecordsKept(w: World)
  {
    && w.active <= w.records.Keys <= w.place.Keys
    && (forall id :: id in w.records ==> w.records[id].id == id)
    && w.sealed <= w.records.Keys && w.sealed !! w.active
  }

  ghost predicate Controlled(w: World) { ControlsNamed(w) && CutOff(w) && TasksLinked(w) && RecordsKept(w) }

  ghost predicate RecordsBilled(w: World)
  {
    && (forall id :: id in w.records && id !in w.sealed ==> w.records[id].traffic == Bill(w.history.credited, id))
    && (forall id :: id in w.history.credited ==> id in w.records)
  }

  ghost predicate FilingBilled(w: World)
  {
    forall t :: t in w.tasks && w.tasks[t].Filing? ==>
      var record := w.tasks[t].record;
      record.id in w.sealed && record.traffic == Bill(w.history.credited, record.id)
  }

  ghost predicate ClosedBilled(w: World)
  {
    forall i :: 0 <= i < |w.closed| ==>
      w.closed[i].id in w.sealed && w.closed[i].traffic == Bill(w.history.credited, w.closed[i].id)
  }

  /** A sealed record carries exactly what was credited before it was sealed. */
  ghost predicate Billed(w: World) { RecordsBilled(w) && FilingBilled(w) && ClosedBilled(w) }

  /** Which update each task holds. */
  ghost function Flying(w: World): map<Tid, nat>
  {
    map t | t in w.tasks && w.tasks[t].Crediting? :: w.tasks[t].k
  }

  ghost predicate Fated(w: World) { OneFate(w.history, Flying(w)) }

  ghost predicate Inv(w: World) { OnePlace(w) && Controlled(w) && Billed(w) && Fated(w) }

  /** What a step does to each table. */
  lemma Effects(w: World, t: Tid)
    requires t in w.tasks && LinkedTo(w, w.tasks[t])
    ensures var v, pc := Advance(w, t, w.tasks[t]), w.tasks[t];
      && (forall id :: id in v.controls <==> id in w.controls && !(pc.Unlinking? && id == pc.id))
  {}

  lemma ActiveEffects(w: World, t: Tid)
    requires t in w.tasks && LinkedTo(w, w.tasks[t])
    ensures var v, pc := Advance(w, t, w.tasks[t]), w.tasks[t];
      && (forall id :: id in v.active <==>
            (id in w.active && !(pc.Taking? && id == pc.id)) || (pc.Linking? && id == pc.s.id))
      && (forall id :: id in v.sealed <==> id in w.sealed || (pc.Sealing? && id == pc.id))
  {}

  lemma PlaceEffects(w: World, t: Tid)
    requires t in w.tasks && LinkedTo(w, w.tasks[t])
    ensures var v, pc := Advance(w, t, w.tasks[t]), w.tasks[t];
      && v.place == (if pc.Linking? then w.place[pc.s.id := InActive]
                     else if pc.Taking? && pc.id in w.active then w.place[pc.id := WithTask(t)]
                     else if pc.Filing? then w.place[pc.record.id := InClosed(|w.closed|)]
                     else w.place)
  {}

  lemma RecordEffects(w: World, t: Tid)
    requires t in w.tasks && LinkedTo(w, w.tasks[t]) && forall id :: id in w.records ==> w.records[id].id == id
    ensures var v, pc := Advance(w, t, w.tasks[t]), w.tasks[t];
      && (forall id :: id in v.records <==> id in w.records || (pc.Linking? && id == pc.s.id))
      && forall id :: id in v.records ==> v.records[id].id == id
  {}

  lemma PlaceIsUnique(w: World, id: Id, p: Place, q: Place)
    requires OnePlace(w) && IsAt(w, id, p) && IsAt(w, id, q)
    ensures p == q && id in w.place && w.place[id] == p
  {
    hide IsAt;
  }

  // ----- one place -----

  ghost predicate HasTask(w: World, t: Tid, id: Id) { t in w.tasks && Carries(w.tasks[t], id) }

  lemma StaysPut(w: World, v: World)
    requires OnePlace(w) && v.place == w.place
    requires v.active == w.active && v.closed == w.closed && v.rejected == w.rejected
    requires forall t, id :: HasTask(v, t, id) <==> HasTask(w, t, id)
    ensures OnePlace(v)
  {
    forall id: Id, p: Place ensures IsAt(v, id, p) <==> IsAt(w, id, p) {
      if p.WithTask? { assert HasTask(v, p.t, id) <==> HasTask(w, p.t, id); }
    }
    hide IsAt, HasTask;
  }

  /** One session moved from the place it had, if any, to another. */
  lemma Moves(w: World, v: World, k: Id, to: Place)
    requires OnePlace(w) && v.place == w.place[k := to]
    requires forall id: Id, p: Place :: IsAt(v, id, p) <==> if id == k then p == to else IsAt(w, id, p)
    ensures OnePlace(v)
  {
    hide IsAt;
  }

  lemma StartKeepsPlace(w: World, e: Event)
    requires OnePlace(w) && !e.Step?
    ensures OnePlace(Next(w, e))
  {
    var v := Next(w, e);
    if e.Reject? && v != w {
      forall id: Id, p: Place ensures IsAt(v, id, p) <==> if id == e.s.id then p == InRejected(|w.rejected|) else IsAt(w, id, p) {
        assert IsAt(w, id, p) ==> id in w.place;
      }
      Moves(w, v, e.s.id, InRejected(|w.rejected|));
    } else if e.Open? && v != w {
      forall id: Id, p: Place ensures IsAt(v, id, p) <==> if id == e.s.id then p == WithTask(e.t) else IsAt(w, id, p) {
        assert IsAt(w, id, p) ==> id in w.place;
      }
      Moves(w, v, e.s.id, WithTask(e.t));
    } else if v != w {
      StaysPut(w, v);
    }
  }

  lemma AdvanceKeepsPlace(w: World, t: Tid)
    requires OnePlace(w) && TasksLinked(w) && t in w.tasks
    ensures OnePlace(Advance(w, t, w.tasks[t]))
  {
    var pc := w.tasks[t];
    assert LinkedTo(w, pc);
    hide TasksLinked, OnePlace, Advance, LinkedTo;
    if pc.Linking? {
      Links(w, t);
    } else if pc.Taking? && pc.id in w.active {
      Takes(w, t);
    } else if pc.Filing? {
      Files(w, t);
    } else {
      CarriesOn(w, t);
    }
  }

  lemma CarriesOn(w: World, t: Tid)
    requires OnePlace(w) && t in w.tasks && LinkedTo(w, w.tasks[t])
    requires var pc := w.tasks[t]; !pc.Linking? && !pc.Filing? && (pc.Taking? ==> pc.id !in w.active)
    ensures OnePlace(Advance(w, t, w.tasks[t]))
  {
    var v := Advance(w, t, w.tasks[t]);
    OthersStay(w, t);
    OwnCarry(w, t);
    assert v.active == w.active && v.closed == w.closed && v.rejected == w.rejected && v.place == w.place;
    hide OnePlace, Advance, LinkedTo, Carries;
    forall t1, id ensures HasTask(v, t1, id) <==> HasTask(w, t1, id) {
      if t1 == t { assert HasTask(v, t, id) <==> HasTask(w, t, id); }
    }
    StaysPut(w, v);
  }

  /** A step of one task leaves every other where it stood. */
  lemma OthersStay(w: World, t: Tid)
    requires t in w.tasks
    ensures var v := Advance(w, t, w.tasks[t]);
      && (forall t1 :: t1 != t ==> (t1 in v.tasks <==> t1 in w.tasks))
      && (forall t1 :: t1 != t && t1 in w.tasks ==> v.tasks[t1] == w.tasks[t1])
  {}

  lemma OwnCarry(w: World, t: Tid)
    requires t in w.tasks && LinkedTo(w, w.tasks[t])
    requires var pc := w.tasks[t]; !pc.Linking? && !pc.Filing? && (pc.Taking? ==> pc.id !in w.active)
    ensures forall id :: HasTask(Advance(w, t, w.tasks[t]), t, id) <==> HasTask(w, t, id)
  {}

  lemma Links(w: World, t: Tid)
    requires OnePlace(w) && t in w.tasks && w.tasks[t].Linking?
    ensures OnePlace(Advance(w, t, w.tasks[t]))
  {
    var v, k := Advance(w, t, w.tasks[t]), w.tasks[t].s.id;
    forall id: Id, p: Place ensures IsAt(v, id, p) <==> if id == k then p == InActive else IsAt(w, id, p) {
      assert IsAt(w, k, WithTask(t));
      assert IsAt(w, id, p) ==> id in w.place && w.place[id] == p;
    }
    Moves(w, v, k, InActive);
  }

  lemma Takes(w: World, t: Tid)
    requires OnePlace(w) && t in w.tasks && w.tasks[t].Taking? && w.tasks[t].id in w.active
    ensures OnePlace(Advance(w, t, w.tasks[t]))
  {
    var v, k := Advance(w, t, w.tasks[t]), w.tasks[t].id;
    forall id: Id, p: Place ensures IsAt(v, id, p) <==> if id == k then p == WithTask(t) else IsAt(w, id, p) {
      assert IsAt(w, k, InActive);
      assert IsAt(w, id, p) ==> id in w.place && w.place[id] == p;
    }
    Moves(w, v, k, WithTask(t));
  }

  lemma Files(w: World, t: Tid)
    requires OnePlace(w) && t in w.tasks && w.tasks[t].Filing?
    ensures OnePlace(Advance(w, t, w.tasks[t]))
  {
    var v, k := Advance(w, t, w.tasks[t]), w.tasks[t].record.id;
    forall id: Id, p: Place ensures IsAt(v, id, p) <==> if id == k then p == InClosed(|w.closed|) else IsAt(w, id, p) {
      assert IsAt(w, k, WithTask(t));
      assert IsAt(w, id, p) ==> id in w.place && w.place[id] == p;
    }
    Moves(w, v, k, InClosed(|w.closed|));
  }

  // ----- controls -----

  lemma StartKeepsCutOff(w: World, e: Event)
    requires CutOff(w) && !e.Step?
    ensures CutOff(Next(w, e))
  {
    var v := Next(w, e);
    forall id | id in v.active && id !in v.controls ensures IsTaking(v, id) {
      assert IsTaking(w, id);
      var t :| t in w.tasks && w.tasks[t].Taking? && w.tasks[t].id == id;
      assert v.tasks[t] == w.tasks[t];
    }
  }

  lemma AdvanceKeepsCutOff(w: World, t: Tid)
    requires CutOff(w) && TasksLinked(w) && t in w.tasks
    ensures CutOff(Advance(w, t, w.tasks[t]))
  {
    var v, pc := Advance(w, t, w.tasks[t]), w.tasks[t];
    assert LinkedTo(w, pc);
    Effects(w, t);
    ActiveEffects(w, t);
    OthersStay(w, t);
    assert pc.Unlinking? ==> t in v.tasks && v.tasks[t] == Taking(pc.id, pc.why);
    hide TasksLinked, Advance;
    forall id | id in v.active && id !in v.controls ensures IsTaking(v, id) {
      if pc.Unlinking? && pc.id == id {
        assert v.tasks[t].Taking?;
      } else {
        assert IsTaking(w, id);
        var t1 :| t1 in w.tasks && w.tasks[t1].Taking? && w.tasks[t1].id == id;
        assert t1 != t && v.tasks[t1] == w.tasks[t1];
      }
    }
  }

  lemma StartKeepsNamed(w: World, e: Event)
    requires ControlsNamed(w) && RecordsKept(w) && !e.Step?
    ensures ControlsNamed(Next(w, e)) && RecordsKept(Next(w, e))
  {}

  lemma AdvanceKeepsNamed(w: World, t: Tid)
    requires OnePlace(w) && ControlsNamed(w) && t in w.tasks && LinkedTo(w, w.tasks[t])
    ensures ControlsNamed(Advance(w, t, w.tasks[t]))
  {
    var v := Advance(w, t, w.tasks[t]);
    OthersStay(w, t);
    forall id | id in v.controls ensures id in v.active || IsLinking(v, id) {
      NamedAfter(w, t, id);
    }
  }

  lemma NamedAfter(w: World, t: Tid, id: Id)
    requires OnePlace(w) && t in w.tasks && LinkedTo(w, w.tasks[t])
    requires id in w.active || IsLinking(w, id)
    requires id in Advance(w, t, w.tasks[t]).controls
    ensures id in Advance(w, t, w.tasks[t]).active || IsLinking(Advance(w, t, w.tasks[t]), id)
  {
    Effects(w, t);
    ActiveEffects(w, t);
    PlaceEffects(w, t);
    OthersStay(w, t);
    if id !in w.active {
      assert IsAt(w, id, w.place[id]);
      if Carries(w.tasks[t], id) { PlaceIsUnique(w, id, w.place[id], WithTask(t)); }
    }
    hide OnePlace, Advance;
  }

  lemma AdvanceKeepsRecords(w: World, t: Tid)
    requires TasksLinked(w) && RecordsKept(w) && t in w.tasks
    ensures RecordsKept(Advance(w, t, w.tasks[t]))
  {
    assert LinkedTo(w, w.tasks[t]);
    Effects(w, t);
    ActiveEffects(w, t);
    PlaceEffects(w, t);
    RecordEffects(w, t);
    hide Advance, TasksLinked;
  }

  lemma StartKeepsLinked(w: World, e: Event)
    requires TasksLinked(w) && RecordsKept(w) && !e.Step?
    ensures TasksLinked(Next(w, e))
  {
    var v := Next(w, e);
    forall t | t in v.tasks ensures LinkedTo(v, v.tasks[t]) {
      assert t in w.tasks ==> LinkedTo(w, w.tasks[t]);
    }
  }

  lemma OtherStaysLinked(w: World, t: Tid, t1: Tid)
    requires OnePlace(w) && t in w.tasks && t1 in w.tasks && t1 != t && RecordsKept(w)
    requires LinkedTo(w, w.tasks[t]) && LinkedTo(w, w.tasks[t1])
    ensures LinkedTo(Advance(w, t, w.tasks[t]), w.tasks[t1])
  {
    var pc, pc1 := w.tasks[t], w.tasks[t1];
    Effects(w, t);
    ActiveEffects(w, t);
    PlaceEffects(w, t);
    RecordEffects(w, t);
    forall id ensures !(Carries(pc, id) && Carries(pc1, id)) {
      if Carries(pc, id) && Carries(pc1, id) { PlaceIsUnique(w, id, WithTask(t), WithTask(t1)); }
    }
    hide OnePlace, Advance;
    assert (pc.Linking? ==> Carries(pc, pc.s.id)) && (pc.Sealing? ==> Carries(pc, pc.id));
  }

  lemma AdvanceKeepsLinked(w: World, t: Tid)
    requires OnePlace(w) && TasksLinked(w) && RecordsKept(w) && t in w.tasks
    ensures TasksLinked(Advance(w, t, w.tasks[t]))
  {
    var v := Advance(w, t, w.tasks[t]);
    assert LinkedTo(w, w.tasks[t]);
    OthersStay(w, t);
    assert t in v.tasks ==> LinkedTo(v, v.tasks[t]);
    forall t1 | t1 in v.tasks && t1 != t ensures LinkedTo(v, v.tasks[t1]) {
      OtherStaysLinked(w, t, t1);
    }
    hide OnePlace, RecordsKept, LinkedTo, Advance;
  }

  // ----- traffic -----

  lemma StartKeepsBilled(w: World, e: Event)
    requires Billed(w) && !e.Step?
    ensures Billed(Next(w, e))
  {
    hide Bill;
  }

  lemma HistoryEffects(w: World, t: Tid)
    requires t in w.tasks && LinkedTo(w, w.tasks[t])
    ensures var v, pc := Advance(w, t, w.tasks[t]), w.tasks[t];
      && v.history == (if pc.Crediting? then Settle(w.history, pc.id, pc.k, pc.u, pc.id in w.sealed) else w.history)
      && v.closed == (if pc.Filing? then w.closed + [pc.record] else w.closed)
  {
    hide Settle;
  }

  lemma SealedBillStays(w: World, t: Tid, id: Id)
    requires t in w.tasks && LinkedTo(w, w.tasks[t]) && id in w.sealed
    ensures Bill(Advance(w, t, w.tasks[t]).history.credited, id) == Bill(w.history.credited, id)
  {
    HistoryEffects(w, t);
    var pc := w.tasks[t];
    if pc.Crediting? { PutAdds(w.history.credited, pc.id, Stamped(pc.k, pc.u)); }
    hide Advance, Past;
  }

  lemma AdvanceKeepsClosedBilled(w: World, t: Tid)
    requires FilingBilled(w) && ClosedBilled(w) && t in w.tasks && LinkedTo(w, w.tasks[t])
    ensures ClosedBilled(Advance(w, t, w.tasks[t]))
  {
    var v := Advance(w, t, w.tasks[t]);
    Effects(w, t);
    HistoryEffects(w, t);
    forall id | id in w.sealed ensures Bill(v.history.credited, id) == Bill(w.history.credited, id) { SealedBillStays(w, t, id); }
    hide Advance, Bill, LinkedTo;
  }

  lemma AdvanceKeepsFilingBilled(w: World, t: Tid)
    requires FilingBilled(w) && RecordsBilled(w) && t in w.tasks && LinkedTo(w, w.tasks[t])
    ensures FilingBilled(Advance(w, t, w.tasks[t]))
  {
    var v, pc := Advance(w, t, w.tasks[t]), w.tasks[t];
    Effects(w, t);
    HistoryEffects(w, t);
    OthersStay(w, t);
    forall id | id in w.sealed ensures Bill(v.history.credited, id) == Bill(w.history.credited, id) { SealedBillStays(w, t, id); }
    assert pc.Sealing? ==> v.tasks[t] == Filing(Sessions.Ended(w.records[pc.id], pc.why.reason, pc.why.status));
    assert !pc.Sealing? ==> t !in v.tasks || !v.tasks[t].Filing?;
    hide Advance, Bill;
  }

  lemma CreditsKeepRecordsBilled(w: World, t: Tid)
    requires RecordsBilled(w) && t in w.tasks && LinkedTo(w, w.tasks[t]) && w.tasks[t].Crediting?
    ensures RecordsBilled(Advance(w, t, w.tasks[t]))
  {
    var pc := w.tasks[t];
    PutAdds(w.history.credited, pc.id, Stamped(pc.k, pc.u));
    forall other | other != pc.id
      ensures Bill(Put(w.history.credited, pc.id, Stamped(pc.k, pc.u)), other) == Bill(w.history.credited, other) {}
    hide Bill, Past, Credit;
  }

  lemma AdvanceKeepsRecordsBilled(w: World, t: Tid)
    requires RecordsBilled(w) && t in w.tasks && LinkedTo(w, w.tasks[t])
    ensures RecordsBilled(Advance(w, t, w.tasks[t]))
  {
    var pc := w.tasks[t];
    if pc.Crediting? {
      CreditsKeepRecordsBilled(w, t);
    } else {
      if pc.Linking? { assert Bill(w.history.credited, pc.s.id) == NO_TRAFFIC; }
      hide Bill, Past, Credit;
    }
  }

  // ----- fates -----

  lemma StartKeepsFated(w: World, e: Event)
    requires Fated(w) && !e.Step?
    ensures Fated(Next(w, e))
  {
    hide OneFate, Issue, Miss;
    var v := Next(w, e);
    if e.Update? && e.t !in w.tasks {
      if e.id in w.active {
        IssueKeeps(w.history, Flying(w), e.t);
        assert Flying(v) == Flying(w)[e.t := w.history.asked];
      } else {
        MissKeeps(w.history, Flying(w), e.id, e.u);
        assert Flying(v) == Flying(w);
      }
    } else {
      assert Flying(v) == Flying(w);
    }
  }

  lemma AdvanceKeepsFated(w: World, t: Tid)
    requires Fated(w) && t in w.tasks && LinkedTo(w, w.tasks[t])
    ensures Fated(Advance(w, t, w.tasks[t]))
  {
    var v, pc := Advance(w, t, w.tasks[t]), w.tasks[t];
    HistoryEffects(w, t);
    OthersStay(w, t);
    assert t in v.tasks ==> !v.tasks[t].Crediting? && !pc.Crediting?;
    hide OneFate, Settle, Advance;
    if pc.Crediting? {
      SettleKeeps(w.history, Flying(w), t, pc.id, pc.u, pc.id in w.sealed);
      assert Flying(v) == Flying(w) - {t};
    } else {
      assert Flying(v) == Flying(w);
    }
  }

  // ----- every run -----

  lemma AdvanceKeepsInv(w: World, t: Tid)
    requires Inv(w) && t in w.tasks
    ensures Inv(Advance(w, t, w.tasks[t]))
  {
    hide OnePlace, ControlsNamed, CutOff, RecordsKept, RecordsBilled, FilingBilled, ClosedBilled, Fated, Advance, LinkedTo;
    assert LinkedTo(w, w.tasks[t]);
    AdvanceKeepsPlace(w, t);
    AdvanceKeepsNamed(w, t);
    AdvanceKeepsCutOff(w, t);
    AdvanceKeepsLinked(w, t);
    AdvanceKeepsRecords(w, t);
    AdvanceKeepsRecordsBilled(w, t);
    AdvanceKeepsFilingBilled(w, t);
    AdvanceKeepsClosedBilled(w, t);
    AdvanceKeepsFated(w, t);
    hide TasksLinked;
  }

  lemma StartKeepsInv(w: World, e: Event)
    requires Inv(w) && !e.Step?
    ensures Inv(Next(w, e))
  {
    hide OnePlace, ControlsNamed, CutOff, TasksLinked, RecordsKept, Billed, Fated, Next;
    StartKeepsPlace(w, e);
    StartKeepsNamed(w, e);
    StartKeepsCutOff(w, e);
    StartKeepsLinked(w, e);
    StartKeepsBilled(w, e);
    StartKeepsFated(w, e);
  }

  lemma NextKeepsInv(w: World, e: Event)
    requires Inv(w)
    ensures Inv(Next(w, e))
  {
    if !e.Step? {
      StartKeepsInv(w, e);
    } else if e.t in w.tasks {
      AdvanceKeepsInv(w, e.t);
    }
    hide Inv, Advance;
  }

  lemma {:induction false} RunKeepsInv(es: seq<Event>)
    ensures Inv(Run(EMPTY, es))
    decreases |es|
  {
    if es != [] {
      RunKeepsInv(es[..|es| - 1]);
      NextKeepsInv(Run(EMPTY, es[..|es| - 1]), es[|es| - 1]);
      hide Inv, Next;
    }
  }

  /**
   * Whatever the interleaving, an issued session is in one place at a time: in one table, once, or with
   * the one caller that is moving it; and what is in some place was issued.
   */
  lemma EverySessionIsInOnePlace(es: seq<Event>, id: Id)
    ensures var w := Run(EMPTY, es);
      && (id in w.place ==> IsAt(w, id, w.place[id]))
      && (forall p :: IsAt(w, id, p) ==> id in w.place && p == w.place[id])
  {
    RunKeepsInv(es);
    hide IsAt, Controlled, Billed, Fated;
  }

  /** Between operations every issued session is in exactly one table and the controls are those of the active ones. */
  lemma QuietTablesAgree(es: seq<Event>)
    requires Run(EMPTY, es).tasks == map[]
    ensures var w := Run(EMPTY, es);
      && w.controls == w.active
      && Sessions.Distinct(w.closed) && Sessions.Distinct(w.rejected)
      && forall id ::
          var active, closed, rejected := id in w.active, Sessions.Among(id, w.closed), Sessions.Among(id, w.rejected);
          && (id in w.place <==> active || closed || rejected)
          && !(active && closed) && !(active && rejected) && !(closed && rejected)
  {
    var w := Run(EMPTY, es);
    RunKeepsInv(es);
    hide Run, Billed;
    assert w.controls == w.active;
    ListsAreDistinct(w);
    forall id
      ensures id in w.place <==> id in w.active || Sessions.Among(id, w.closed) || Sessions.Among(id, w.rejected)
      ensures !(id in w.active && Sessions.Among(id, w.closed)) && !(id in w.active && Sessions.Among(id, w.rejected))
      ensures !(Sessions.Among(id, w.closed) && Sessions.Among(id, w.rejected))
    {
      QuietPlace(w, id);
    }
  }

  lemma ListsAreDistinct(w: World)
    requires OnePlace(w)
    ensures Sessions.Distinct(w.closed) && Sessions.Distinct(w.rejected)
  {
    forall i, j | 0 <= i < j < |w.closed| ensures w.closed[i].id != w.closed[j].id {
      assert IsAt(w, w.closed[i].id, InClosed(i)) && IsAt(w, w.closed[j].id, InClosed(j));
    }
    forall i, j | 0 <= i < j < |w.rejected| ensures w.rejected[i].id != w.rejected[j].id {
      assert IsAt(w, w.rejected[i].id, InRejected(i)) && IsAt(w, w.rejected[j].id, InRejected(j));
    }
  }

  lemma QuietPlace(w: World, id: Id)
    requires OnePlace(w) && w.tasks == map[]
    ensures id in w.active <==> id in w.place && w.place[id] == InActive
    ensures Sessions.Among(id, w.closed) <==> id in w.place && w.place[id].InClosed?
    ensures Sessions.Among(id, w.rejected) <==> id in w.place && w.place[id].InRejected?
    ensures id in w.place ==> !w.place[id].WithTask?
  {
    if id in w.place { assert IsAt(w, id, w.place[id]); }
    assert id in w.active ==> IsAt(w, id, InActive);
    if Sessions.Among(id, w.closed) {
      var i :| 0 <= i < |w.closed| && w.closed[i].id == id;
      assert IsAt(w, id, InClosed(i));
    }
    if Sessions.Among(id, w.rejected) {
      var i :| 0 <= i < |w.rejected| && w.rejected[i].id == id;
      assert IsAt(w, id, InRejected(i));
    }
  }

  /** A closed record shows exactly the updates that were credited, those that reached it before it was sealed. */
  lemma ClosedRecordsAreBilled(es: seq<Event>, i: nat)
    requires i < |Run(EMPTY, es).closed|
    ensures var w := Run(EMPTY, es);
      w.closed[i].traffic == Bill(w.history.credited, w.closed[i].id) == Capped(Total(w.history.credited, w.closed[i].id))
  {
    var w := Run(EMPTY, es);
    RunKeepsInv(es);
    BillIsTheTotal(w.history.credited, w.closed[i].id);
    hide Run, OnePlace, Controlled, Fated, Bill, Total;
  }

  /** When a task comes to signal an active session, it cancels the token or another closer is already past it. */
  lemma SignalsOrIsLate(es: seq<Event>, t: Tid)
    requires var w := Run(EMPTY, es); t in w.tasks && w.tasks[t].Signalling?
    ensures var w := Run(EMPTY, es);
      var id := w.tasks[t].id;
      id in Next(w, Step(t)).cancelled || id !in w.active || IsTaking(w, id)
  {
    RunKeepsInv(es);
    hide Run, OnePlace, Billed, Fated, ControlsNamed, TasksLinked, RecordsKept;
    SignalStep(Run(EMPTY, es), t);
  }

  lemma SignalStep(w: World, t: Tid)
    requires CutOff(w) && t in w.tasks && w.tasks[t].Signalling?
    ensures var id := w.tasks[t].id;
      id in Next(w, Step(t)).cancelled || id !in w.active || IsTaking(w, id)
  {
    hide IsTaking;
  }

  // ----- what becomes of an update -----

  /** Every update that was asked for is in flight, credited, late or missed, and only one of these. */
  lemma EveryUpdateHasOneFate(es: seq<Event>, k: nat)
    ensures var w := Run(EMPTY, es);
      && (k < w.history.asked <==> k in w.history.fates)
      && (k < w.history.asked ==> HasFate(w.history, Flying(w), k, w.history.fates[k]))
      && (forall f :: HasFate(w.history, Flying(w), k, f) ==> k < w.history.asked && f == w.history.fates[k])
      && (w.tasks == map[] && k < w.history.asked ==> !w.history.fates[k].InFlight?)
  {
    RunKeepsInv(es);
    hide Run, OnePlace, Controlled, Billed;
  }

  lemma NextKeepsFates(w: World, e: Event, k: nat)
    requires Inv(w) && k in w.history.fates && !w.history.fates[k].InFlight?
    ensures k in Next(w, e).history.fates && Next(w, e).history.fates[k] == w.history.fates[k]
  {
    if e.Step? && e.t in w.tasks {
      assert LinkedTo(w, w.tasks[e.t]);
      HistoryEffects(w, e.t);
      var pc := w.tasks[e.t];
      if pc.Crediting? {
        assert Flying(w)[e.t] == pc.k;
        assert HasFate(w.history, Flying(w), pc.k, InFlight(e.t));
      }
    } else {
      assert k < w.history.asked;
    }
    hide OnePlace, Billed, ControlsNamed, CutOff, RecordsKept, Advance;
  }

  lemma {:induction false} FatesAreFinal(w: World, es: seq<Event>, k: nat)
    requires Inv(w) && k in w.history.fates && !w.history.fates[k].InFlight?
    ensures var v := Run(w, es);
      Inv(v) && k in v.history.fates && v.history.fates[k] == w.history.fates[k]
    decreases |es|
  {
    if es != [] {
      var v := Run(w, es[..|es| - 1]);
      FatesAreFinal(w, es[..|es| - 1], k);
      NextKeepsFates(v, es[|es| - 1], k);
      NextKeepsInv(v, es[|es| - 1]);
      hide Next, Inv;
    }
  }

  /** A task that is not scheduled stays where it is. */
  lemma {:induction false} Waiting(w: World, es: seq<Event>, t: Tid)
    requires Inv(w) && t in w.tasks && Step(t) !in es
    ensures Inv(Run(w, es)) && t in Run(w, es).tasks && Run(w, es).tasks[t] == w.tasks[t]
    decreases |es|
  {
    if es != [] {
      var v, e := Run(w, es[..|es| - 1]), es[|es| - 1];
      hide Inv, Next;
      Waiting(w, es[..|es| - 1], t);
      NextKeepsInv(v, e);
      WaitsForOneStep(v, e, t);
    }
  }

  lemma WaitsForOneStep(w: World, e: Event, t: Tid)
    requires t in w.tasks && e != Step(t)
    ensures t in Next(w, e).tasks && Next(w, e).tasks[t] == w.tasks[t]
  {
    if e.Step? && e.t in w.tasks { OthersStay(w, e.t); }
    hide Advance;
  }

  /** Asked for in this world: if the lookup finds no active session the update is missed, and that is final. */
  lemma MissedForGood(w: World, t: Tid, id: Id, u: Traffic, es: seq<Event>)
    requires Inv(w) && t !in w.tasks && id !in w.active
    ensures var v := Run(Next(w, Update(t, id, u)), es);
      w.history.asked in v.history.fates && v.history.fates[w.history.asked].Missed?
  {
    NextKeepsInv(w, Update(t, id, u));
    FatesAreFinal(Next(w, Update(t, id, u)), es, w.history.asked);
    hide Run, Inv;
  }

  /**
   * Otherwise it is written when its task comes to its next step: credited, and so in the record, if
   * the record has not been sealed by then, and late, and so lost, if it has. Either is final.
   */
  lemma CreditedUnlessSealed(w: World, t: Tid, id: Id, u: Traffic, before: seq<Event>, after: seq<Event>)
    requires Inv(w) && t !in w.tasks && id in w.active && Step(t) !in before
    ensures var k := w.history.asked;
      var waiting := Run(Next(w, Update(t, id, u)), before);
      var v := Run(Next(waiting, Step(t)), after);
      k in v.history.fates
      && (v.history.fates[k].Credited? <==> id !in waiting.sealed) && (v.history.fates[k].Late? <==> id in waiting.sealed)
  {
    hide Inv, Run, Next;
    var k := w.history.asked;
    var begun := Next(w, Update(t, id, u));
    UpdateBegins(w, t, id, u);
    NextKeepsInv(w, Update(t, id, u));
    Waiting(begun, before, t);
    var waiting := Run(begun, before);
    UpdateEnds(waiting, t);
    NextKeepsInv(waiting, Step(t));
    FatesAreFinal(Next(waiting, Step(t)), after, k);
  }

  lemma UpdateBegins(w: World, t: Tid, id: Id, u: Traffic)
    requires t !in w.tasks && id in w.active
    ensures var v := Next(w, Update(t, id, u));
      t in v.tasks && v.tasks[t] == Crediting(id, w.history.asked, u)
  {}

  lemma UpdateEnds(w: World, t: Tid)
    requires Inv(w) && t in w.tasks && w.tasks[t].Crediting?
    ensures var pc, v := w.tasks[t], Next(w, Step(t));
      pc.k in v.history.fates && v.history.fates[pc.k]
        == if pc.id in w.sealed then Late(pc.id, |Past(w.history.late, pc.id)|)
           else Credited(pc.id, |Past(w.history.credited, pc.id)|)
  {
    assert LinkedTo(w, w.tasks[t]);
    HistoryEffects(w, t);
    hide Inv, Advance, Past;
  }

  // ----- late updates -----

  /** The session has been taken out of the active table and nobody still holds its record for an update. */
  ghost predicate Settled(w: World, id: Id)
  {
    id in w.records && id !in w.active && forall t :: t in w.tasks ==> !(w.tasks[t].Crediting? && w.tasks[t].id == id)
  }

  /** From here on a session's record is final. */
  ghost predicate SameRecord(w: World, v: World, id: Id)
  {
    Past(v.history.late, id) == Past(w.history.late, id) && Past(v.history.credited, id) == Past(w.history.credited, id)
  }

  lemma SettledForOneStep(w: World, e: Event, id: Id)
    requires TasksLinked(w) && Settled(w, id)
    ensures Settled(Next(w, e), id) && SameRecord(w, Next(w, e), id)
  {
    if e.Step? && e.t in w.tasks {
      assert LinkedTo(w, w.tasks[e.t]);
      SettledForOneAdvance(w, e.t, id);
      hide Advance, Settled;
    }
    hide TasksLinked;
  }

  lemma KeepsRecords(w: World, t: Tid)
    requires t in w.tasks
    ensures var v := Advance(w, t, w.tasks[t]);
      && (forall id :: id in w.records ==> id in v.records)
      && (LinkedTo(w, w.tasks[t]) && t in v.tasks ==> !v.tasks[t].Crediting? && !w.tasks[t].Crediting?)
  {}

  lemma SettledForOneAdvance(w: World, t: Tid, id: Id)
    requires t in w.tasks && LinkedTo(w, w.tasks[t]) && Settled(w, id)
    ensures var v := Advance(w, t, w.tasks[t]);
      Settled(v, id) && SameRecord(w, v, id)
  {
    var v := Advance(w, t, w.tasks[t]);
    ActiveEffects(w, t);
    OthersStay(w, t);
    HistoryEffects(w, t);
    KeepsRecords(w, t);
    hide Advance;
  }

  /**
   * Once a session is settled nothing more is credited to it and nothing more comes late, whatever
   * happens next: every further update for it is missed.
   */
  lemma {:induction false} SettledForGood(w: World, es: seq<Event>, id: Id)
    requires Inv(w) && Settled(w, id)
    ensures Inv(Run(w, es)) && Settled(Run(w, es), id) && SameRecord(w, Run(w, es), id)
    decreases |es|
  {
    if es != [] {
      var v := Run(w, es[..|es| - 1]);
      SettledForGood(w, es[..|es| - 1], id);
      SettledForOneStep(v, es[|es| - 1], id);
      NextKeepsInv(v, es[|es| - 1]);
      hide Next, Settled, Past, OnePlace, Billed, Fated, TasksLinked;
    }
  }

  function Steps(w: World, t: Tid, n: nat): World { if n == 0 then w else Next(Steps(w, t, n - 1), Step(t)) }

  /** The four steps of a close that finds its session active. */
  lemma ClosesInFour(w: World, t: Tid, id: Id, why: Why)
    requires t in w.tasks && w.tasks[t] == Unlinking(id, why) && id in w.active
    requires id in w.records && w.records[id].id == id
    ensures var record := Sessions.Ended(w.records[id], why.reason, why.status);
      Steps(w, t, 4) == w.(records := w.records[id := record], active := w.active - {id}, closed := w.closed + [record],
                           controls := w.controls - {id}, tasks := w.tasks - {t},
                           place := w.place[id := InClosed(|w.closed|)], sealed := w.sealed + {id})
  {
    var record := Sessions.Ended(w.records[id], why.reason, why.status);
    var cut := Goto(w.(controls := w.controls - {id}), t, Taking(id, why));
    var taken := Goto(cut.(active := w.active - {id}, place := w.place[id := WithTask(t)]), t, Sealing(id, why));
    var done := Goto(taken.(records := w.records[id := record], sealed := w.sealed + {id}), t, Filing(record));
    StepsAre(w, t, cut, taken, done);
    assert done.tasks - {t} == w.tasks - {t};
    assert done.place[record.id := InClosed(|w.closed|)] == w.place[id := InClosed(|w.closed|)];
  }

  lemma StepsAre(w: World, t: Tid, a: World, b: World, c: World)
    requires Next(w, Step(t)) == a && Next(a, Step(t)) == b && Next(b, Step(t)) == c
    ensures Steps(w, t, 4) == Next(c, Step(t))
  {
    hide Next;
    assert Steps(w, t, 0) == w;
    assert Steps(w, t, 1) == a;
    assert Steps(w, t, 2) == b;
    assert Steps(w, t, 3) == c;
  }

  /** An update that looked its session up before a close and writes after it is lost: the record is already filed. */
  lemma LateUpdateIsLost(w: World, s: Session, u: Traffic, why: Why)
    requires w.tasks == map[] && s.id in w.records && w.records[s.id] == s && s.id in w.active
    ensures var closed := Steps(Next(Next(w, Update(1, s.id, u)), Close(2, s.id, why)), 2, 4);
      var v := Next(closed, Step(1));
      && v.tasks == map[] && v.closed == w.closed + [Sessions.Ended(s, why.reason, why.status)]
      && Past(v.history.late, s.id) == Past(w.history.late, s.id) + [Stamped(w.history.asked, u)]
  {
    var begun := Next(Next(w, Update(1, s.id, u)), Close(2, s.id, why));
    assert begun == w.(tasks := map[1 := Crediting(s.id, w.history.asked, u), 2 := Unlinking(s.id, why)],
                       history := Issue(w.history, 1));
    ClosesInFour(begun, 2, s.id, why);
    var closed := Steps(begun, 2, 4);
    assert closed.tasks == map[1 := Crediting(s.id, w.history.asked, u)];
    hide Steps, Credit, Past;
  }

  // ----- without interference -----

  /** The tables as the sequential manager sees them. */
  function Tables(w: World): Sessions.Ledger
    requires w.active <= w.records.Keys
  {
    Sessions.Ledger(map id | id in w.active :: w.records[id], w.closed, w.rejected, map id | id in w.controls :: Sessions.Control(false),
           w.cancelled, {})
  }

  lemma TablesAfterAClose(w: World, v: World, id: Id, why: Why)
    requires w.active <= w.records.Keys && id in w.active
    requires v.records == w.records[id := Sessions.Ended(w.records[id], why.reason, why.status)]
    requires v.closed == w.closed + [Sessions.Ended(w.records[id], why.reason, why.status)]
    requires v.active == w.active - {id} && v.controls == w.controls - {id}
    requires v.rejected == w.rejected && v.cancelled == w.cancelled
    ensures v.active <= v.records.Keys
    ensures Tables(v) == Sessions.ClosedOff(Tables(w), id, why.reason, why.status)
  {
    assert Tables(v).active == Tables(w).active - {id};
    assert Tables(v).controls == Tables(w).controls - {id};
  }

  /** A close that is not interrupted does what the sequential operation does. */
  lemma AloneIsClosedOff(w: World, t: Tid, id: Id, why: Why)
    requires Inv(w) && t !in w.tasks && id in w.active
    ensures var v := Steps(Next(w, Close(t, id, why)), t, 4);
      && v.tasks == w.tasks && v.active <= v.records.Keys
      && Tables(v) == Sessions.ClosedOff(Tables(w), id, why.reason, why.status)
  {
    assert RecordsKept(w);
    var begun := Next(w, Close(t, id, why));
    assert begun == Goto(w, t, Unlinking(id, why));
    hide OnePlace, Controlled, Billed, Next, Steps, Sessions.ClosedOff, Tables;
    ClosesInFour(begun, t, id, why);
    var v := Steps(begun, t, 4);
    assert w.tasks[t := Unlinking(id, why)] - {t} == w.tasks;
    TablesAfterAClose(w, v, id, why);
  }
}
