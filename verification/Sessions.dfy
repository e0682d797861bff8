/** The session manager: the active map, the closed and rejected lists, and the control entries. */
module Sessions {
  import opened Basics
  import opened PortTexts
  import opened Acl
  import opened AclEngine
  import opened Traffic

  type Id = nat

  datatype Status = Active | Closed | Failed | RejectedByAcl

  datatype Session = Session(id: Id, user: string, dest: string, port: nat, udp: bool, traffic: Traffic, status: Status,
                             reason: Option<string>, decision: string, rule: Option<string>)

  datatype Control = Control(udpShutdown: bool)

  /** The manager's tables, the tokens cancelled so far and the UDP relays told to stop. */
  datatype Ledger = Ledger(active: map<Id, Session>, closed: seq<Session>, rejected: seq<Session>,
                           controls: map<Id, Control>, cancelled: set<Id>, stopped: set<Id>)

  function NewRecord(id: Id, user: string, dest: string, port: nat, udp: bool, decision: string,
                     rule: Option<string>): Session
  {
    Session(id, user, dest, port, udp, NO_TRAFFIC, Active, None, decision, rule)
  }

  function Ended(s: Session, reason: Option<string>, status: Status): Session { s.(reason := reason, status := status) }

  // ----- the operations -----

  function Opened(l: Ledger, s: Session, c: Control): Ledger
  {
    l.(active := l.active[s.id := s], controls := l.controls[s.id := c])
  }

  function ClosedOff(l: Ledger, id: Id, reason: Option<string>, status: Status): Ledger
  {
    var m := l.(controls := l.controls - {id});
    if id in l.active
    then m.(active := l.active - {id}, closed := l.closed + [Ended(l.active[id], reason, status)])
    else m
  }

  function Signalled(l: Ledger, id: Id): Ledger
  {
    if id in l.controls
    then l.(cancelled := l.cancelled + {id},
            stopped := if l.controls[id].udpShutdown then l.stopped + {id} else l.stopped)
    else l
  }

  function Terminated(l: Ledger, id: Id, reason: string, status: Status): Ledger
  {
    ClosedOff(Signalled(l, id), id, Some(reason), status)
  }

  function Rejected(l: Ledger, s: Session): Ledger
  {
    l.(rejected := l.rejected + [Ended(s, Some("Rejected by ACL"), RejectedByAcl)])
  }

  function Updated(l: Ledger, id: Id, u: Traffic): Ledger
  {
    if id in l.active
    then var s := l.active[id]; l.(active := l.active[id := s.(traffic := Credit(s.traffic, u))])
    else l
  }

  /** A new record carries what it was opened with, no traffic, and is active. */
  lemma NewRecordShows(id: Id, user: string, dest: string, port: nat, udp: bool, decision: string, rule: Option<string>)
    ensures var s := NewRecord(id, user, dest, port, udp, decision, rule);
      && s.id == id && s.user == user && s.dest == dest && s.port == port && s.udp == udp
      && s.decision == decision && s.rule == rule && s.status == Active && s.reason == None
      && s.traffic.bytesSent == s.traffic.bytesReceived == s.traffic.packetsSent == s.traffic.packetsReceived == 0
  {}

  /** A closed record is the active one with the reason and status of the close, and all else as it was. */
  lemma ClosedRecordShows(l: Ledger, id: Id, reason: Option<string>, status: Status)
    requires id in l.active
    ensures var l' := ClosedOff(l, id, reason, status);
      && |l'.closed| == |l.closed| + 1 && id !in l'.active && id !in l'.controls
      && var s, t := l.active[id], l'.closed[|l.closed|];
      && t.reason == reason && t.status == status
      && t.id == s.id && t.user == s.user && t.dest == s.dest && t.port == s.port && t.udp == s.udp
      && t.traffic == s.traffic && t.decision == s.decision && t.rule == s.rule
  {}

  /** A rejected record says so. */
  lemma RejectedRecordShows(l: Ledger, s: Session)
    ensures var l' := Rejected(l, s);
      && |l'.rejected| == |l.rejected| + 1
      && var t := l'.rejected[|l.rejected|];
      t.id == s.id && t.user == s.user && t.dest == s.dest && t.status == RejectedByAcl && t.reason == Some("Rejected by ACL")
  {}

  // ----- what every operation keeps -----

  ghost predicate Among(id: Id, sessions: seq<Session>) { exists i :: 0 <= i < |sessions| && sessions[i].id == id }

  ghost predicate Distinct(sessions: seq<Session>)
  {
    forall i, j :: 0 <= i < j < |sessions| ==> sessions[i].id != sessions[j].id
  }

  /** Every session is in one table, once, and the control entries are those of the active sessions. */
  ghost predicate Partitioned(l: Ledger)
  {
    && l.controls.Keys == l.active.Keys
    && (forall id :: id in l.active ==> l.active[id].id == id)
    && Distinct(l.closed) && Distinct(l.rejected)
    && (forall id :: id in l.active ==> !Among(id, l.closed) && !Among(id, l.rejected))
    && (forall id :: Among(id, l.closed) ==> !Among(id, l.rejected))
  }

  ghost predicate Known(l: Ledger, id: Id) { id in l.active || Among(id, l.closed) || Among(id, l.rejected) }

  lemma AppendedSession(sessions: seq<Session>, s: Session)
    requires Distinct(sessions) && !Among(s.id, sessions)
    ensures Distinct(sessions + [s])
    ensures forall id :: Among(id, sessions + [s]) <==> Among(id, sessions) || id == s.id
  {
    var all := sessions + [s];
    forall i, j | 0 <= i < j < |all| ensures all[i].id != all[j].id {
      if j == |sessions| { assert Among(sessions[i].id, sessions); }
    }
    forall id ensures Among(id, all) <==> Among(id, sessions) || id == s.id {
      assert all[|sessions|].id == s.id;
      if Among(id, sessions) {
        var i :| 0 <= i < |sessions| && sessions[i].id == id;
        assert all[i].id == id;
      }
    }
  }

  lemma OpenedKeeps(l: Ledger, s: Session, c: Control)
    requires Partitioned(l) && !Known(l, s.id)
    ensures Partitioned(Opened(l, s, c))
    ensures forall id :: Known(Opened(l, s, c), id) <==> Known(l, id) || id == s.id
  {
    hide Among, Distinct;
  }

  lemma ClosedOffKeeps(l: Ledger, id: Id, reason: Option<string>, status: Status)
    requires Partitioned(l)
    ensures Partitioned(ClosedOff(l, id, reason, status))
    ensures forall k :: Known(ClosedOff(l, id, reason, status), k) <==> Known(l, k)
  {
    if id in l.active { AppendedSession(l.closed, Ended(l.active[id], reason, status)); }
    hide Among, Distinct;
  }

  lemma RejectedKeeps(l: Ledger, s: Session)
    requires Partitioned(l) && !Known(l, s.id)
    ensures Partitioned(Rejected(l, s))
    ensures forall id :: Known(Rejected(l, s), id) <==> Known(l, id) || id == s.id
  {
    AppendedSession(l.rejected, Ended(s, Some("Rejected by ACL"), RejectedByAcl));
    hide Among, Distinct;
  }

  lemma UpdatedKeeps(l: Ledger, id: Id, u: Traffic)
    requires Partitioned(l)
    ensures Partitioned(Updated(l, id, u))
    ensures forall k :: Known(Updated(l, id, u), k) <==> Known(l, k)
  {
    hide Among, Distinct, Credit;
  }

  /** Only the first close of a session has any effect. */
  lemma ClosingIsIdempotent(l: Ledger, id: Id, reason: Option<string>, status: Status, reason2: Option<string>, status2: Status)
    ensures ClosedOff(ClosedOff(l, id, reason, status), id, reason2, status2) == ClosedOff(l, id, reason, status)
  {
    assert l.controls - {id} - {id} == l.controls - {id};
  }

  /** Once closed, a session ignores traffic, and terminating it cancels nothing. */
  lemma ClosedIsFinal(l: Ledger, id: Id, reason: Option<string>, status: Status, u: Traffic, reason2: string, status2: Status)
    ensures Updated(ClosedOff(l, id, reason, status), id, u) == ClosedOff(l, id, reason, status)
    ensures Terminated(ClosedOff(l, id, reason, status), id, reason2, status2) == ClosedOff(l, id, reason, status)
  {
    assert l.controls - {id} - {id} == l.controls - {id};
  }

  // ----- closing many -----

  /** Exactly these sessions have gone from active to closed, each with its own record; everything else is as it was. */
  ghost predicate Swept(l: Ledger, m: Ledger, ids: set<Id>, status: Status, reasons: map<Id, string>)
  {
    && ids <= l.active.Keys && ids <= reasons.Keys
    && m.active == l.active - ids && m.controls == l.controls - ids
    && m.rejected == l.rejected
    && m.cancelled == l.cancelled + ids
    && m.stopped == l.stopped + (set id | id in ids && id in l.controls && l.controls[id].udpShutdown)
    && |m.closed| == |l.closed| + |ids| && l.closed <= m.closed
    && forall id :: id in ids ==> Recorded(m.closed, Ended(l.active[id], Some(reasons[id]), status))
  }

  ghost predicate Recorded(sessions: seq<Session>, s: Session) { s in sessions }

  lemma SweptNothing(l: Ledger, status: Status, reasons: map<Id, string>)
    ensures Swept(l, l, {}, status, reasons)
  {
    assert l.active - {} == l.active && l.controls - {} == l.controls;
  }

  lemma SweptOneMore(l: Ledger, m: Ledger, ids: set<Id>, status: Status, reasons: map<Id, string>, id: Id)
    requires l.controls.Keys == l.active.Keys
    requires Swept(l, m, ids, status, reasons) && id in l.active && id !in ids && id in reasons
    ensures Swept(l, Terminated(m, id, reasons[id], status), ids + {id}, status, reasons)
  {
    var n := Terminated(m, id, reasons[id], status);
    assert l.active - ids - {id} == l.active - (ids + {id});
    assert l.controls - ids - {id} == l.controls - (ids + {id});
    assert m.active[id] == l.active[id] && id in m.controls;
    var record := Ended(l.active[id], Some(reasons[id]), status);
    assert n.closed == m.closed + [record];
    assert Recorded(n.closed, record);
    forall k | k in ids ensures Recorded(n.closed, Ended(l.active[k], Some(reasons[k]), status)) {
      assert Recorded(m.closed, Ended(l.active[k], Some(reasons[k]), status));
    }
    assert n.stopped == l.stopped + (set k | k in ids + {id} && k in l.controls && l.controls[k].udpShutdown);
  }

  // ----- revocation -----

  function RequestOf(lib: Library, s: Session): Request
  {
    var address := match lib.parseIp(s.dest)
      case Some(V4(bits)) => IPv4(bits)
      case Some(V6(bits)) => IPv6(bits)
      case None => Domain(s.dest);
    Request(address, s.port, if s.udp then Udp else Tcp)
  }

  /** A session's own request: its port, its transport, and the address that its destination spells, or else the name. */
  predicate Describes(lib: Library, q: Request, s: Session)
  {
    && q.port == s.port
    && Transports(q.protocol) == (if s.udp then {Udp} else {Tcp})
    && match q.dest
       case IPv4(bits) => lib.parseIp(s.dest) == Some(V4(bits))
       case IPv6(bits) => lib.parseIp(s.dest) == Some(V6(bits))
       case Domain(name) => name == s.dest && lib.parseIp(s.dest).None?
  }

  /** What is evaluated for a session is its own request, and nothing else is. */
  lemma RequestDescribes(lib: Library, s: Session, q: Request)
    ensures Describes(lib, q, s) <==> q == RequestOf(lib, s)
  {
    assert q.protocol.Both? ==> Tcp in Transports(q.protocol) && Udp in Transports(q.protocol);
    assert q.protocol.Tcp? ==> Tcp in Transports(q.protocol);
    assert q.protocol.Udp? ==> Udp in Transports(q.protocol);
  }

  /** The policy in force, by the user's configured groups, blocks this session's request. */
  ghost predicate Revoked(lib: Library, c: Config, s: Session)
  {
    exists q :: Describes(lib, q, s) && Policy(Static(c, s.user), Taken(lib, q), c.defaultPolicy).Block?
  }

  /** It is meant to. */
  ghost predicate ToBeRevoked(lib: Library, c: Config, s: Session)
  {
    exists q :: Describes(lib, q, s) && Policy(Static(c, s.user), Meant(lib, q), c.defaultPolicy).Block?
  }

  lemma RevokedByRequest(lib: Library, c: Config, s: Session)
    ensures Revoked(lib, c, s) <==> Policy(Static(c, s.user), Taken(lib, RequestOf(lib, s)), c.defaultPolicy).Block?
    ensures ToBeRevoked(lib, c, s) <==> Policy(Static(c, s.user), Meant(lib, RequestOf(lib, s)), c.defaultPolicy).Block?
  {
    hide Policy, RequestOf, Describes, Static, Taken, Meant;
    forall q ensures Describes(lib, q, s) <==> q == RequestOf(lib, s) { RequestDescribes(lib, s, q); }
  }

  /** A session of a user whose rules have faithful patterns is revoked exactly if it is meant to be. */
  lemma RevokedAsMeant(lib: Library, c: Config, s: Session)
    requires AllFaithful(Static(c, s.user))
    ensures Revoked(lib, c, s) <==> ToBeRevoked(lib, c, s)
  {
    hide RuleTaken, RuleMeans, RuleFaithful, Revoked, ToBeRevoked;
    var applies, q := Static(c, s.user), RequestOf(lib, s);
    forall r | applies(r) ensures Taken(lib, q)(r) <==> Meant(lib, q)(r) {
      FaithfulRulesAreTakenAsMeant(lib, r, q);
    }
    RevokedByRequest(lib, c, s);
    hide Taken, Meant, RequestOf, Static;
    assert forall a :: SomeMatch(applies, Taken(lib, q), a) <==> SomeMatch(applies, Meant(lib, q), a);
  }

  /** Rules for the other transport spare a session: if every blocking rule is for UDP only, no TCP session goes, and conversely. */
  lemma OtherTransportIsSpared(lib: Library, c: Config, s: Session)
    requires c.defaultPolicy.Allow?
    requires forall r, i :: Static(c, s.user)(r) && r.action.Block? && 0 <= i < |r.protocols| ==>
      r.protocols[i] == if s.udp then Tcp else Udp
    ensures !Revoked(lib, c, s)
  {
    hide Policy, Static, Revoked, PortMeant;
    var q := RequestOf(lib, s);
    RevokedByRequest(lib, c, s);
    forall r | Static(c, s.user)(r) && r.action.Block? ensures !Taken(lib, q)(r) {
      forall i | 0 <= i < |r.protocols| ensures Transports(r.protocols[i]) !! Transports(q.protocol) {}
    }
    NobodyBlocks(Static(c, s.user), Taken(lib, q));
  }

  lemma NobodyBlocks(applies: Rule -> bool, matches: Rule -> bool)
    requires forall r :: applies(r) && r.action.Block? ==> !matches(r)
    ensures Policy(applies, matches, Allow).Allow?
  {
    assert !SomeMatch(applies, matches, Block);
  }

  /** A blocking rule for a session's own transport and port, whatever the destination, revokes it. */
  lemma OwnTransportIsRevoked(lib: Library, c: Config, s: Session, r: Rule, i: nat, j: nat)
    requires Static(c, s.user)(r) && r.action.Block? && "*" in r.destinations
    requires i < |r.protocols| && r.protocols[i] == (if s.udp then Udp else Tcp)
    requires j < |r.ports| && PortMeans(r.ports[j], s.port)
    ensures Revoked(lib, c, s)
  {
    hide Policy, Static, Revoked, PortMeans;
    var q := RequestOf(lib, s);
    RevokedByRequest(lib, c, s);
    var d :| 0 <= d < |r.destinations| && r.destinations[d] == "*";
    assert DestinationTaken(lib, r.destinations[d], q.dest);
    assert q.protocol in Transports(r.protocols[i]) * Transports(q.protocol);
    assert Taken(lib, q)(r);
    SomebodyBlocks(Static(c, s.user), Taken(lib, q), r, c.defaultPolicy);
  }

  lemma SomebodyBlocks(applies: Rule -> bool, matches: Rule -> bool, r: Rule, default: Action)
    requires applies(r) && r.action.Block? && matches(r)
    ensures Policy(applies, matches, default).Block?
  {
    assert SomeMatch(applies, matches, Block);
  }

  ghost function RevokedIds(lib: Library, c: Config, active: map<Id, Session>): set<Id>
  {
    set id | id in active && Revoked(lib, c, active[id])
  }

  ghost predicate Explains(lib: Library, c: Config, s: Session, reason: string)
  {
    exists rule, q ::
      && Describes(lib, q, s)
      && Verdict(Static(c, s.user), Taken(lib, q), c.defaultPolicy, Block, rule, "Default policy")
      && reason == "Terminated by ACL update (" + rule + ")"
  }

  class SessionManager {
    var active: map<Id, Session>
    var closed: seq<Session>
    var rejected: seq<Session>
    var controls: map<Id, Control>
    var cancelled: set<Id>
    var stopped: set<Id>

    ghost function State(): Ledger
      reads this
    {
      Ledger(active, closed, rejected, controls, cancelled, stopped)
    }

    ghost predicate Valid()
      reads this
    {
      Partitioned(State())
    }

    constructor ()
      ensures Valid() && State() == Ledger(map[], [], [], map[], {}, {})
    {
      active, closed, rejected, controls, cancelled, stopped := map[], [], [], map[], {}, {};
    }

    /** Identifiers are generated to be unique. */
    method NewSession(id: Id, user: string, dest: string, port: nat, udp: bool, decision: string, rule: Option<string>,
                      c: Control)
      requires Valid() && !Known(State(), id)
      modifies this
      ensures Valid() && State() == Opened(old(State()), NewRecord(id, user, dest, port, udp, decision, rule), c)
    {
      OpenedKeeps(State(), NewRecord(id, user, dest, port, udp, decision, rule), c);
      controls := controls[id := c];
      active := active[id := NewRecord(id, user, dest, port, udp, decision, rule)];
    }

    method CloseSession(id: Id, reason: Option<string>, status: Status)
      requires Valid()
      modifies this
      ensures Valid() && State() == ClosedOff(old(State()), id, reason, status)
    {
      ClosedOffKeeps(State(), id, reason, status);
      hide Partitioned;
      controls := controls - {id};
      if id in active {
        var session := active[id];
        active := active - {id};
        closed := closed + [Ended(session, reason, status)];
      }
    }

    method TerminateSession(id: Id, reason: string, status: Status)
      requires Valid()
      modifies this
      ensures Valid() && State() == Terminated(old(State()), id, reason, status)
    {
      hide Among, Distinct, ClosedOff;
      if id in controls {
        cancelled := cancelled + {id};
        if controls[id].udpShutdown { stopped := stopped + {id}; }
      }
      CloseSession(id, Some(reason), status);
    }

    method TrackRejected(id: Id, user: string, dest: string, port: nat, udp: bool, rule: Option<string>)
      requires Valid() && !Known(State(), id)
      modifies this
      ensures Valid() && State() == Rejected(old(State()), NewRecord(id, user, dest, port, udp, "block", rule))
    {
      var session := NewRecord(id, user, dest, port, udp, "block", rule);
      RejectedKeeps(State(), session);
      hide Partitioned;
      rejected := rejected + [Ended(session, Some("Rejected by ACL"), RejectedByAcl)];
    }

    method UpdateTraffic(id: Id, u: Traffic)
      requires Valid()
      modifies this
      ensures Valid() && State() == Updated(old(State()), id, u)
    {
      UpdatedKeeps(State(), id, u);
      hide Partitioned;
      if id in active {
        var session := active[id];
        active := active[id := session.(traffic := Credit(session.traffic, u))];
      }
    }

    /** Terminates the collected sessions in whatever order the table yields them. */
    method TerminateAll(ids: set<Id>, reasons: map<Id, string>, status: Status)
      requires Valid() && ids <= active.Keys && ids <= reasons.Keys
      modifies this
      ensures Valid() && Swept(old(State()), State(), ids, status, reasons)
    {
      hide Partitioned, Swept, Terminated;
      ghost var start := State();
      assert start.controls.Keys == start.active.Keys by { PartitionedControls(start); }
      SweptNothing(start, status, reasons);
      var left := ids;
      assert ids - left == {};
      while left != {}
        invariant Valid() && left <= ids && Swept(start, State(), ids - left, status, reasons)
        decreases left
      {
        var id :| id in left;
        SweptOneMore(start, State(), ids - left, status, reasons, id);
        TerminateSession(id, reasons[id], status);
        assert ids - left + {id} == ids - (left - {id});
        left := left - {id};
      }
      assert ids - {} == ids;
    }

    method CloseAllActive(reason: string, status: Status)
      requires Valid()
      modifies this
      ensures Valid()
      ensures Swept(old(State()), State(), old(active.Keys), status, map id | id in old(active) :: reason)
      ensures active == map[] && controls == map[]
    {
      hide Partitioned;
      PartitionedControls(State());
      ghost var start := State();
      TerminateAll(active.Keys, map id | id in active :: reason, status);
      assert start.active - start.active.Keys == map[] && start.controls - start.active.Keys == map[];
    }

    /** Moves to closed, as failed and with the token cancelled, exactly the sessions the policy now blocks. */
    method EnforceAcl(engine: Engine) returns (ghost reasons: map<Id, string>)
      requires Valid() && engine.Ok()
      modifies this
      ensures Valid()
      ensures var revoked := RevokedIds(engine.lib, engine.source, old(active));
        && Swept(old(State()), State(), revoked, Failed, reasons)
        && forall id :: id in revoked ==> Explains(engine.lib, engine.source, old(active[id]), reasons[id])
      ensures forall id :: id in old(active) && AllFaithful(Static(engine.source, old(active[id]).user)) ==>
        (id in RevokedIds(engine.lib, engine.source, old(active)) <==> ToBeRevoked(engine.lib, engine.source, old(active[id])))
    {
      hide Partitioned, Swept, Verdict, Policy, RequestOf, AllFaithful, Taken, Meant, RegexWorks, Describes, Revoked;
      forall id | id in active && AllFaithful(Static(engine.source, active[id].user))
        ensures id in RevokedIds(engine.lib, engine.source, active) <==> ToBeRevoked(engine.lib, engine.source, active[id])
      {
        RevokedAsMeant(engine.lib, engine.source, active[id]);
      }
      var toTerminate: map<Id, string> := map[];
      var left := active.Keys;
      while left != {}
        invariant unchanged(this) && left <= active.Keys
        invariant toTerminate.Keys
               == set id | id in active && id !in left && Revoked(engine.lib, engine.source, active[id])
        invariant forall id :: id in toTerminate ==> Explains(engine.lib, engine.source, active[id], toTerminate[id])
        decreases left
      {
        var id :| id in left;
        var session := active[id];
        var decision, rule := engine.Evaluate(session.user, RequestOf(engine.lib, session));
        VerdictDecides(Static(engine.source, session.user), Taken(engine.lib, RequestOf(engine.lib, session)),
                       engine.source.defaultPolicy, decision, rule, "Default policy");
        RevokedByRequest(engine.lib, engine.source, session);
        RequestDescribes(engine.lib, session, RequestOf(engine.lib, session));
        if decision.Block? {
          toTerminate := toTerminate[id := "Terminated by ACL update (" + rule + ")"];
        }
        left := left - {id};
      }
      reasons := toTerminate;
      assert toTerminate.Keys == RevokedIds(engine.lib, engine.source, active);
      TerminateAll(toTerminate.Keys, toTerminate, Failed);
    }
  }

  lemma PartitionedControls(l: Ledger)
    requires Partitioned(l)
    ensures l.controls.Keys == l.active.Keys
  {}

  lemma VerdictDecides(applies: Rule -> bool, matches: Rule -> bool, default: Action, decision: Action,
                       reported: string, fallback: string)
    requires Verdict(applies, matches, default, decision, reported, fallback)
    ensures decision == Policy(applies, matches, default)
  {}
}
