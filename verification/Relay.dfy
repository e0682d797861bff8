/**
 * The relay: an upload and a download task share one cancellation token, move buffers, and report
 * their traffic in batches. Every suspension point separates two steps, and the two interleave freely.
 */
module Relay {
  import opened Basics
  import opened Traffic

  const BUFFER_SIZE: nat := 32 * 1024

  datatype Direction = Upload | Download

  datatype After = Continue | Leave(cancelled: bool) | Fail

  datatype Ending = Finished | ConnectionClosed | IoError | NoBandwidth

  datatype Phase =
    | AtLoop
    | Allocating(data: seq<Byte>)
    | Writing(data: seq<Byte>)
    | Flushing(next: After)
    | Leaving(cancelled: bool)
    | Ended(ending: Ending)

  /**
   * The local variables of one task, followed by what an observer of its sockets and of the session
   * manager has seen: bytes read, bytes of completed writes, bytes read but not written when the
   * task gave up, completed writes, and everything reported.
   */
  datatype Task = Task(phase: Phase, totalBytes: nat, totalPackets: nat, pendingBytes: nat, pendingPackets: nat,
                       closed: bool, received: seq<Byte>, delivered: seq<Byte>, dropped: seq<Byte>, writes: nat,
                       reportedBytes: nat, reportedPackets: nat)

  const FRESH := Task(AtLoop, 0, 0, 0, 0, false, [], [], [], 0, 0, 0)

  datatype Io =
    | SeeCancel
    | Read(data: seq<Byte>)
    | ReadClosed
    | ReadFails
    | Allocated
    | AllocationFails
    | Wrote
    | WriteClosed
    | WriteFails
    | Flush
    | Exit

  /** Packet intervals are non-zero: zero is taken to mean one. */
  function Interval(configured: nat): (n: nat)
    ensures n >= 1 && (configured >= 1 ==> n == configured)
  {
    if configured == 0 then 1 else configured
  }

  /** One step of a task; an event that cannot happen in the present phase changes nothing. */
  function TaskNext(t: Task, interval: nat, e: Io): Task
  {
    match (t.phase, e)
    case (AtLoop, SeeCancel) => t.(phase := Flushing(Leave(true)))
    case (AtLoop, Read(data)) =>
      if |data| == 0 then t.(closed := true, phase := Flushing(Leave(false)))
      else if |data| > BUFFER_SIZE then t
      else t.(phase := Allocating(data), received := t.received + data)
    case (AtLoop, ReadClosed) => t.(closed := true, phase := Flushing(Leave(false)))
    case (AtLoop, ReadFails) => t.(phase := Flushing(Fail))
    case (Allocating(data), Allocated) => t.(phase := Writing(data))
    case (Allocating(data), AllocationFails) => t.(phase := Ended(NoBandwidth), dropped := data)
    case (Writing(data), Wrote) =>
      var packets := SatAdd(t.pendingPackets, 1);
      t.(totalBytes := SatAdd(t.totalBytes, |data|), totalPackets := SatAdd(t.totalPackets, 1),
         pendingBytes := SatAdd(t.pendingBytes, |data|), pendingPackets := packets,
         delivered := t.delivered + data, writes := t.writes + 1,
         phase := if packets >= interval then Flushing(Continue) else AtLoop)
    case (Writing(data), WriteClosed) => t.(closed := true, phase := Flushing(Leave(false)), dropped := data)
    case (Writing(data), WriteFails) => t.(phase := Flushing(Fail), dropped := data)
    case (Flushing(next), Flush) =>
      var u := if t.pendingPackets == 0 then t
               else t.(reportedBytes := t.reportedBytes + t.pendingBytes, pendingBytes := 0,
                       reportedPackets := t.reportedPackets + t.pendingPackets, pendingPackets := 0);
      (match next
       case Continue => u.(phase := AtLoop)
       case Leave(cancelled) => u.(phase := Leaving(cancelled))
       case Fail => u.(phase := Ended(IoError)))
    case (Leaving(cancelled), Exit) => t.(phase := Ended(if cancelled then ConnectionClosed else Finished))
    case _ => t
  }

  // ----- one task -----

  function InFlight(t: Task): seq<Byte>
  {
    match t.phase case Allocating(data) => data case Writing(data) => data case _ => []
  }

  /** No batch can saturate, or the direction never relays 2^64 bytes. */
  ghost predicate Unsaturated(relayed: nat, interval: nat)
  {
    interval * BUFFER_SIZE <= MAX_U64 || relayed <= MAX_U64
  }

  ghost predicate Accounted(t: Task, interval: nat)
  {
    && t.reportedPackets + t.pendingPackets == t.writes
    && t.reportedBytes + t.pendingBytes <= |t.delivered|
    && (Unsaturated(|t.delivered|, interval) ==> t.reportedBytes + t.pendingBytes == |t.delivered|)
    && t.pendingBytes <= t.pendingPackets * BUFFER_SIZE
    && t.totalBytes == SatAdd(0, |t.delivered|)
    && t.totalPackets == SatAdd(0, t.writes)
  }

  ghost predicate InPhase(t: Task, interval: nat)
  {
    match t.phase
    case AtLoop => t.pendingPackets < interval
    case Allocating(data) => t.pendingPackets < interval && 0 < |data| <= BUFFER_SIZE
    case Writing(data) => t.pendingPackets < interval && 0 < |data| <= BUFFER_SIZE
    case Flushing(next) => t.pendingPackets <= interval && (next == Leave(false) ==> t.closed)
    case Leaving(cancelled) => t.pendingPackets == 0 && (!cancelled ==> t.closed)
    case Ended(ending) =>
      && t.pendingPackets < interval
      && (ending != NoBandwidth ==> t.pendingPackets == 0)
      && (ending == Finished ==> t.closed)
  }

  ghost predicate Faithful(t: Task)
  {
    && t.received == t.delivered + InFlight(t) + t.dropped
    && (t.phase.AtLoop? || t.phase.Allocating? || t.phase.Writing? ==> t.dropped == [])
    && (t.phase == Flushing(Continue) ==> t.dropped == [])
    && |t.dropped| <= BUFFER_SIZE
  }

  ghost predicate TaskInv(t: Task, interval: nat)
  {
    1 <= interval <= MAX_U64 && Accounted(t, interval) && InPhase(t, interval) && Faithful(t)
  }

  /** What the invariant says of a task at its exit and at its loop head. */
  lemma ExitsAreExact(t: Task, interval: nat)
    requires TaskInv(t, interval)
    ensures t.phase.Ended? && t.phase.ending != NoBandwidth ==> t.reportedPackets == t.writes
    ensures t.phase.Ended? && t.phase.ending != NoBandwidth && Unsaturated(|t.delivered|, interval) ==> t.reportedBytes == |t.delivered|
    ensures t.phase.AtLoop? ==> 0 <= t.writes - t.reportedPackets < interval
  {
    hide Faithful, Unsaturated;
  }

  lemma TaskNextKeepsAccounts(t: Task, interval: nat, e: Io)
    requires TaskInv(t, interval)
    ensures Accounted(TaskNext(t, interval, e), interval) && InPhase(TaskNext(t, interval, e), interval)
  {
    hide Faithful, Unsaturated;
    if e.Wrote? && t.phase.Writing? {
      WritesAreAccounted(t, interval);
    } else {
      PhasesFollow(t, interval, e);
      hide InPhase;
    }
  }

  lemma WritesAreAccounted(t: Task, interval: nat)
    requires TaskInv(t, interval) && t.phase.Writing?
    ensures Accounted(TaskNext(t, interval, Wrote), interval) && InPhase(TaskNext(t, interval, Wrote), interval)
  {
    hide Faithful;
  }

  lemma PhasesFollow(t: Task, interval: nat, e: Io)
    requires TaskInv(t, interval) && !(e.Wrote? && t.phase.Writing?)
    ensures InPhase(TaskNext(t, interval, e), interval)
  {
    hide Faithful, Accounted, SatAdd;
  }

  lemma TaskNextIsFaithful(t: Task, interval: nat, e: Io)
    requires TaskInv(t, interval)
    ensures Faithful(TaskNext(t, interval, e))
  {
    hide Accounted, Unsaturated;
  }

  // ----- both tasks -----

  datatype Relay = Relay(interval: nat, up: Task, down: Task, cancelled: bool, log: seq<Traffic>)

  datatype Event = Cancel | Step(d: Direction, io: Io)

  function Start(configured: nat): Relay { Relay(Interval(configured), FRESH, FRESH, false, []) }

  function TaskOf(r: Relay, d: Direction): Task { if d.Upload? then r.up else r.down }

  function ReportOf(d: Direction, bytes: nat, packets: nat): Traffic
  {
    if d.Upload? then Traffic(bytes, 0, packets, 0) else Traffic(0, bytes, 0, packets)
  }

  /** What this step hands to the session manager. */
  function Reports(t: Task, d: Direction, io: Io): seq<Traffic>
  {
    if io.Flush? && t.phase.Flushing? && t.pendingPackets > 0 then [ReportOf(d, t.pendingBytes, t.pendingPackets)] else []
  }

  function Next(r: Relay, e: Event): Relay
  {
    match e
    case Cancel => r.(cancelled := true)
    case Step(d, io) =>
      if io.SeeCancel? && !r.cancelled then r
      else
        var t := TaskOf(r, d);
        var u := TaskNext(t, r.interval, io);
        var s := r.(cancelled := r.cancelled || (io.Exit? && t.phase.Leaving?), log := r.log + Reports(t, d, io));
        if d.Upload? then s.(up := u) else s.(down := u)
  }

  function Run(r: Relay, es: seq<Event>): Relay
  {
    if es == [] then r else Next(Run(r, es[..|es| - 1]), es[|es| - 1])
  }

  datatype Hint = Reuse | Refresh

  datatype Outcome = Upstream(hint: Hint) | Error(ending: Ending)

  /** What the relay returns once both tasks have ended. */
  function OutcomeOf(r: Relay): Outcome
    requires r.up.phase.Ended? && r.down.phase.Ended?
  {
    match (r.up.phase.ending, r.down.phase.ending)
    case (Finished, Finished) =>
      if r.up.closed && !r.down.closed && r.up.totalBytes == 0 && r.down.totalBytes == 0 then Upstream(Reuse)
      else Upstream(Refresh)
    case (e, Finished) => Error(e)
    case (Finished, e) => Error(e)
    case (e1, e2) => if e1.ConnectionClosed? || e2.ConnectionClosed? then Error(ConnectionClosed) else Error(e1)
  }

  /** Tasks that left through the bottom of their loop, which is where the token is cancelled. */
  predicate LeftByTheLoop(t: Task) { t.phase == Ended(Finished) || t.phase == Ended(ConnectionClosed) }

  ghost predicate Inv(r: Relay)
  {
    && TaskInv(r.up, r.interval) && TaskInv(r.down, r.interval)
    && Sum(r.log) == Traffic(r.up.reportedBytes, r.down.reportedBytes, r.up.reportedPackets, r.down.reportedPackets)
  }

  lemma NextKeepsInv(r: Relay, e: Event)
    requires Inv(r)
    ensures Inv(Next(r, e))
  {
    hide TaskInv, Sum;
    if e.Step? && !(e.io.SeeCancel? && !r.cancelled) {
      var t := TaskOf(r, e.d);
      TaskNextKeepsInv(t, r.interval, e.io);
      var report := Reports(t, e.d, e.io);
      if report != [] {
        SumSnoc(r.log, report[0]);
        assert r.log + report == r.log + [report[0]];
      } else {
        assert r.log + report == r.log;
      }
    }
  }

  lemma TaskNextKeepsInv(t: Task, interval: nat, e: Io)
    requires TaskInv(t, interval)
    ensures TaskInv(TaskNext(t, interval, e), interval)
  {
    TaskNextKeepsAccounts(t, interval, e);
    TaskNextIsFaithful(t, interval, e);
    hide TaskNext, Accounted, InPhase, Faithful;
  }

  lemma StartHasInv(configured: nat)
    requires configured <= MAX_U64
    ensures Inv(Start(configured))
  {
    FreshTurns(Interval(configured), []);
    hide TaskInv;
  }

  lemma {:induction false} RunKeepsInv(configured: nat, es: seq<Event>)
    requires configured <= MAX_U64
    ensures Inv(Run(Start(configured), es))
    decreases |es|
  {
    hide Inv, Next, Start;
    if es == [] {
      StartHasInv(configured);
    } else {
      RunKeepsInv(configured, es[..|es| - 1]);
      NextKeepsInv(Run(Start(configured), es[..|es| - 1]), es[|es| - 1]);
    }
  }

  ghost predicate NoAllocationFails(es: seq<Event>)
  {
    forall i :: 0 <= i < |es| ==> es[i] != Step(Upload, AllocationFails) && es[i] != Step(Download, AllocationFails)
  }

  lemma OnlyAFailureEndsSo(r: Relay, e: Event, d: Direction)
    requires TaskOf(r, d).phase != Ended(NoBandwidth) && e != Step(d, AllocationFails)
    ensures TaskOf(Next(r, e), d).phase != Ended(NoBandwidth)
  {}

  lemma {:induction false} AllocationsSucceed(configured: nat, es: seq<Event>, d: Direction)
    requires NoAllocationFails(es)
    ensures TaskOf(Run(Start(configured), es), d).phase != Ended(NoBandwidth)
    decreases |es|
  {
    if es != [] {
      AllocationsSucceed(configured, es[..|es| - 1], d);
      OnlyAFailureEndsSo(Run(Start(configured), es[..|es| - 1]), es[|es| - 1], d);
      hide Next;
    }
  }

  /** If no allocation errs, a direction has reported at its exit exactly what it wrote. */
  lemma ReportedUnlessRefused(configured: nat, es: seq<Event>, d: Direction)
    requires configured <= MAX_U64 && NoAllocationFails(es)
    requires Unsaturated(|TaskOf(Run(Start(configured), es), d).delivered|, Interval(configured))
    ensures var t := TaskOf(Run(Start(configured), es), d);
      && (t.phase.Ended? ==> t.reportedBytes == |t.delivered| && t.reportedPackets == t.writes)
      && (t.phase.AtLoop? ==> 0 <= t.writes - t.reportedPackets < Interval(configured))
  {
    RunKeepsInv(configured, es);
    AllocationsSucceed(configured, es, d);
    RunKeepsInterval(configured, es);
    ExitsAreExact(TaskOf(Run(Start(configured), es), d), Interval(configured));
    hide Run, TaskInv, Unsaturated;
  }

  /** An allocation error would skip the flush: exactly the pending batch goes unreported. */
  lemma FailedAllocationLosesThePending(configured: nat, es: seq<Event>, d: Direction)
    requires configured <= MAX_U64
    requires TaskOf(Run(Start(configured), es), d).phase == Ended(NoBandwidth)
    ensures var t := TaskOf(Run(Start(configured), es), d);
      && t.writes - t.reportedPackets == t.pendingPackets < Interval(configured)
      && (Unsaturated(|t.delivered|, Interval(configured)) ==> |t.delivered| - t.reportedBytes == t.pendingBytes)
      && (t.reportedPackets == t.writes <==> t.pendingPackets == 0)
  {
    RunKeepsInv(configured, es);
    RunKeepsInterval(configured, es);
    hide Run;
  }

  lemma {:induction false} RunKeepsInterval(configured: nat, es: seq<Event>)
    ensures Run(Start(configured), es).interval == Interval(configured)
    decreases |es|
  {
    if es != [] { RunKeepsInterval(configured, es[..|es| - 1]); }
  }

  /** Bytes leave in the order they came: what was written is what was read, short of at most one abandoned buffer. */
  lemma BytesArriveInOrder(configured: nat, es: seq<Event>, d: Direction)
    requires configured <= MAX_U64
    ensures var t := TaskOf(Run(Start(configured), es), d);
      && t.delivered <= t.received
      && |t.received| - |t.delivered| <= 32768
      && (t.phase.AtLoop? ==> t.delivered == t.received)
  {
    RunKeepsInv(configured, es);
    hide Run, Accounted;
  }

  /** A stream is never handed back for reuse: a download that ends without error has seen the remote close. */
  lemma EveryHintIsRefresh(configured: nat, es: seq<Event>)
    requires configured <= MAX_U64
    requires var r := Run(Start(configured), es); r.up.phase.Ended? && r.down.phase.Ended?
    ensures OutcomeOf(Run(Start(configured), es)) != Upstream(Reuse)
    ensures OutcomeOf(Run(Start(configured), es)) == Upstream(Refresh)
       <==> Run(Start(configured), es).up.phase == Run(Start(configured), es).down.phase == Ended(Finished)
  {
    RunKeepsInv(configured, es);
    hide Run, Accounted, Faithful;
  }

  /**
   * Which error is returned: none exactly if both directions finished; that the connection was closed
   * exactly if either was cancelled; and otherwise the first failure, the upload's before the download's.
   */
  lemma WhichErrorIsReturned(r: Relay)
    requires r.up.phase.Ended? && r.down.phase.Ended?
    ensures var up, down, o := r.up.phase.ending, r.down.phase.ending, OutcomeOf(r);
      && (o.Upstream? <==> up == Finished && down == Finished)
      && (o == Error(ConnectionClosed) <==> up == ConnectionClosed || down == ConnectionClosed)
      && (o.Error? && o.ending != ConnectionClosed ==> o.ending == if up != Finished then up else down)
  {}

  lemma StepCancels(r: Relay, e: Event)
    requires LeftByTheLoop(r.up) || LeftByTheLoop(r.down) ==> r.cancelled
    ensures Next(r, e).cancelled <==> r.cancelled || e.Cancel? || LeftByTheLoop(Next(r, e).up) || LeftByTheLoop(Next(r, e).down)
    ensures LeftByTheLoop(r.up) ==> LeftByTheLoop(Next(r, e).up)
    ensures LeftByTheLoop(r.down) ==> LeftByTheLoop(Next(r, e).down)
  {}

  /** The token is cancelled from outside or by a task leaving its loop; a task that fails does not cancel it. */
  lemma {:induction false} WhoCancels(configured: nat, es: seq<Event>)
    ensures var r := Run(Start(configured), es);
      r.cancelled <==> Cancel in es || LeftByTheLoop(r.up) || LeftByTheLoop(r.down)
    decreases |es|
  {
    if es != [] {
      var init, e := es[..|es| - 1], es[|es| - 1];
      WhoCancels(configured, init);
      assert es == init + [e];
      StepCancels(Run(Start(configured), init), e);
      hide Next, LeftByTheLoop;
    }
  }

  // ----- the loop as written -----

  datatype Fate = Refused | PeerGone | Broken | Sent

  /** What the outside world does to one iteration of the loop. */
  datatype Turn = Cancelled | ReadEnds | ReadBreaks | Packet(data: seq<Byte>, fate: Fate)

  /** The steps of one turn, in the order of the loop body. */
  function Turned(t: Task, interval: nat, turn: Turn): Task
  {
    match turn
    case Cancelled => WindUp(TaskNext(t, interval, SeeCancel), interval)
    case ReadEnds => WindUp(TaskNext(t, interval, ReadClosed), interval)
    case ReadBreaks => TaskNext(TaskNext(t, interval, ReadFails), interval, Flush)
    case Packet(data, fate) =>
      var read := TaskNext(t, interval, Read(data));
      var ready := TaskNext(read, interval, Allocated);
      if |data| == 0 then WindUp(read, interval)
      else match fate
        case Refused => TaskNext(read, interval, AllocationFails)
        case PeerGone => WindUp(TaskNext(ready, interval, WriteClosed), interval)
        case Broken => TaskNext(TaskNext(ready, interval, WriteFails), interval, Flush)
        case Sent => TaskNext(TaskNext(ready, interval, Wrote), interval, Flush)
  }

  /** Below the loop. */
  function WindUp(t: Task, interval: nat): Task { TaskNext(TaskNext(t, interval, Flush), interval, Exit) }

  function Turns(interval: nat, turns: seq<Turn>): Task
  {
    if turns == [] then FRESH else Turned(Turns(interval, turns[..|turns| - 1]), interval, turns[|turns| - 1])
  }

  lemma EndedIgnores(t: Task, interval: nat, turn: Turn)
    requires t.phase.Ended?
    ensures Turned(t, interval, turn) == t
  {}

  /** Nothing happens to a task that has ended. */
  lemma {:induction false} EndedStaysEnded(interval: nat, turns: seq<Turn>, i: nat)
    requires i <= |turns| && Turns(interval, turns[..i]).phase.Ended?
    ensures Turns(interval, turns) == Turns(interval, turns[..i])
    decreases |turns|
  {
    if i == |turns| {
      assert turns[..i] == turns;
    } else {
      assert turns[..|turns| - 1][..i] == turns[..i];
      EndedStaysEnded(interval, turns[..|turns| - 1], i);
      EndedIgnores(Turns(interval, turns[..i]), interval, turns[|turns| - 1]);
      hide Turned;
    }
  }

  /** Hands over the pending counts, if any, and clears them. */
  method FlushPending(d: Direction, reports: seq<Traffic>, bytes: nat, packets: nat)
    returns (reports': seq<Traffic>, bytes': nat, packets': nat)
    ensures packets' == 0 && (packets > 0 || bytes == 0 ==> bytes' == 0)
    ensures packets > 0 || bytes == 0 ==> Sum(reports') == Plus(Sum(reports), ReportOf(d, bytes, packets))
  {
    hide Sum;
    if packets == 0 { return reports, bytes, packets; }
    SumSnoc(reports, ReportOf(d, bytes, packets));
    return reports + [ReportOf(d, bytes, packets)], 0, 0;
  }

  ghost predicate Shows(t: Task, d: Direction, totalBytes: nat, totalPackets: nat, pendingBytes: nat,
                        pendingPackets: nat, closed: bool, reports: seq<Traffic>)
  {
    && t.totalBytes == totalBytes && t.totalPackets == totalPackets
    && t.pendingBytes == pendingBytes && t.pendingPackets == pendingPackets
    && t.closed == closed && Sum(reports) == ReportOf(d, t.reportedBytes, t.reportedPackets)
  }

  /** One direction for as long as the world supplies turns; `AtLoop` when they ran out first. */
  method Pump(d: Direction, configured: nat, turns: seq<Turn>)
    returns (phase: Phase, totalBytes: nat, totalPackets: nat, closed: bool, reports: seq<Traffic>)
    requires configured <= MAX_U64
    requires forall i :: 0 <= i < |turns| && turns[i].Packet? ==> |turns[i].data| <= BUFFER_SIZE
    ensures var t := Turns(Interval(configured), turns);
      && phase == t.phase && totalBytes == t.totalBytes && totalPackets == t.totalPackets && closed == t.closed
      && Sum(reports) == ReportOf(d, t.reportedBytes, t.reportedPackets)
      && (phase.Ended? && phase.ending != NoBandwidth && Unsaturated(|t.delivered|, Interval(configured)) ==>
            Sum(reports) == ReportOf(d, |t.delivered|, t.writes))
  {
    hide Turns, TaskInv, Sum, Turned, TaskNext, Unsaturated;
    PumpedWritesAreReported(configured, turns);
    var interval := Interval(configured);
    var pendingBytes: nat, pendingPackets: nat, cancelled := 0, 0, false;
    totalBytes, totalPackets, closed, reports := 0, 0, false, [];
    ghost var t := FRESH;
    var i := 0;
    FreshTurns(interval, turns);
    while true
      invariant 0 <= i <= |turns| && t == Turns(interval, turns[..i]) && t.phase.AtLoop? && TaskInv(t, interval)
      invariant !cancelled && Shows(t, d, totalBytes, totalPackets, pendingBytes, pendingPackets, closed, reports)
      decreases |turns| - i
    {
      if i == |turns| {
        assert turns[..i] == turns;
        return AtLoop, totalBytes, totalPackets, closed, reports;
      }
      var turn := turns[i];
      ghost var before := t;
      t := Turned(t, interval, turn);
      i := i + 1;
      OneMoreTurn(interval, turns, i);
      PendingOf(before, interval);
      if !Sends(turn) { QuittingTurn(before, interval, turn); }
      match turn {
        case Cancelled =>
          cancelled := true;
          break;
        case ReadEnds =>
          closed := true;
          break;
        case ReadBreaks =>
          reports, pendingBytes, pendingPackets := FlushPending(d, reports, pendingBytes, pendingPackets);
          EndedStaysEnded(interval, turns, i);
          return Ended(IoError), totalBytes, totalPackets, closed, reports;
        case Packet(data, fate) =>
          if |data| == 0 {
            closed := true;
            break;
          }
          match fate {
            case Refused =>
              EndedStaysEnded(interval, turns, i);
              return Ended(NoBandwidth), totalBytes, totalPackets, closed, reports;
            case PeerGone =>
              closed := true;
              break;
            case Broken =>
              reports, pendingBytes, pendingPackets := FlushPending(d, reports, pendingBytes, pendingPackets);
              EndedStaysEnded(interval, turns, i);
              return Ended(IoError), totalBytes, totalPackets, closed, reports;
            case Sent =>
              totalBytes := SatAdd(totalBytes, |data|);
              totalPackets := SatAdd(totalPackets, 1);
              pendingBytes := SatAdd(pendingBytes, |data|);
              pendingPackets := SatAdd(pendingPackets, 1);
              if pendingPackets >= interval {
                reports, pendingBytes, pendingPackets := FlushPending(d, reports, pendingBytes, pendingPackets);
              }
              SendingTurn(before, interval, turn);
              TurnKeepsInv(before, interval, turn);
          }
      }
    }
    reports, pendingBytes, pendingPackets := FlushPending(d, reports, pendingBytes, pendingPackets);
    EndedStaysEnded(interval, turns, i);
    return Ended(if cancelled then ConnectionClosed else Finished), totalBytes, totalPackets, closed, reports;
  }

  predicate Sends(turn: Turn) { turn.Packet? && turn.fate.Sent? && |turn.data| > 0 }

  function EndingOf(turn: Turn): Ending
  {
    match turn
    case Cancelled => ConnectionClosed
    case ReadEnds => Finished
    case ReadBreaks => IoError
    case Packet(data, fate) =>
      if |data| == 0 || fate.PeerGone? then Finished else if fate.Refused? then NoBandwidth else IoError
  }

  /** The direction has ended this way, its pending counts handed over. */
  ghost predicate QuitsAs(t: Task, u: Task, ending: Ending)
  {
    && u.phase == Ended(ending) && u.totalBytes == t.totalBytes && u.totalPackets == t.totalPackets
    && u.closed == t.closed
    && u.reportedBytes == t.reportedBytes + t.pendingBytes && u.reportedPackets == t.reportedPackets + t.pendingPackets
  }

  lemma WindUpQuits(t: Task, interval: nat)
    requires t.phase.Flushing? && t.phase.next.Leave? && (t.pendingPackets > 0 || t.pendingBytes == 0)
    ensures QuitsAs(t, WindUp(t, interval), if t.phase.next.cancelled then ConnectionClosed else Finished)
  {}

  lemma FailingQuits(t: Task, interval: nat)
    requires t.phase == Flushing(Fail) && (t.pendingPackets > 0 || t.pendingBytes == 0)
    ensures QuitsAs(t, TaskNext(t, interval, Flush), IoError)
  {}

  lemma WriteEndsTurn(t: Task, interval: nat, turn: Turn)
    requires t.phase.AtLoop? && turn.Packet? && 0 < |turn.data| <= BUFFER_SIZE
    ensures var out := t.(received := t.received + turn.data, dropped := turn.data);
      match turn.fate
      case Refused => Turned(t, interval, turn) == out.(phase := Ended(NoBandwidth))
      case PeerGone => Turned(t, interval, turn) == WindUp(out.(phase := Flushing(Leave(false)), closed := true), interval)
      case Broken => Turned(t, interval, turn) == TaskNext(out.(phase := Flushing(Fail)), interval, Flush)
      case Sent => true
  {
    hide WindUp;
  }

  lemma ReadEndsTurn(t: Task, interval: nat, turn: Turn)
    requires t.phase.AtLoop? && (turn.Packet? ==> |turn.data| == 0)
    ensures turn.Cancelled? ==> Turned(t, interval, turn) == WindUp(t.(phase := Flushing(Leave(true))), interval)
    ensures turn.ReadBreaks? ==> Turned(t, interval, turn) == TaskNext(t.(phase := Flushing(Fail)), interval, Flush)
    ensures turn.ReadEnds? || turn.Packet? ==>
      Turned(t, interval, turn) == WindUp(t.(phase := Flushing(Leave(false)), closed := true), interval)
  {
    hide WindUp;
  }

  lemma QuittingTurn(t: Task, interval: nat, turn: Turn)
    requires t.phase.AtLoop? && (t.pendingPackets > 0 || t.pendingBytes == 0)
    requires !Sends(turn) && (turn.Packet? ==> |turn.data| <= BUFFER_SIZE)
    ensures var u := Turned(t, interval, turn);
      if EndingOf(turn).NoBandwidth?
      then u.phase == Ended(NoBandwidth) && u.totalBytes == t.totalBytes && u.totalPackets == t.totalPackets
           && u.closed == t.closed && u.reportedBytes == t.reportedBytes && u.reportedPackets == t.reportedPackets
      else QuitsAs(t.(closed := t.closed || EndingOf(turn).Finished?), u, EndingOf(turn))
  {
    hide Turned, WindUp, TaskNext;
    if turn.Packet? && |turn.data| > 0 {
      var out := t.(received := t.received + turn.data, dropped := turn.data);
      WriteEndsTurn(t, interval, turn);
      WindUpQuits(out.(phase := Flushing(Leave(false)), closed := true), interval);
      FailingQuits(out.(phase := Flushing(Fail)), interval);
    } else {
      ReadEndsTurn(t, interval, turn);
      WindUpQuits(t.(phase := Flushing(Leave(true))), interval);
      WindUpQuits(t.(phase := Flushing(Leave(false)), closed := true), interval);
      FailingQuits(t.(phase := Flushing(Fail)), interval);
    }
  }

  lemma SendingTurn(t: Task, interval: nat, turn: Turn)
    requires t.phase.AtLoop? && Sends(turn) && |turn.data| <= BUFFER_SIZE && interval >= 1
    ensures var u := Turned(t, interval, turn);
      var bytes, packets := SatAdd(t.pendingBytes, |turn.data|), SatAdd(t.pendingPackets, 1);
      && u.phase.AtLoop? && u.closed == t.closed
      && u.totalBytes == SatAdd(t.totalBytes, |turn.data|) && u.totalPackets == SatAdd(t.totalPackets, 1)
      && (if packets >= interval
          then u.pendingBytes == 0 && u.pendingPackets == 0
               && u.reportedBytes == t.reportedBytes + bytes && u.reportedPackets == t.reportedPackets + packets
          else u.pendingBytes == bytes && u.pendingPackets == packets
               && u.reportedBytes == t.reportedBytes && u.reportedPackets == t.reportedPackets)
  {}

  lemma FreshTurns(interval: nat, turns: seq<Turn>)
    ensures Turns(interval, turns[..0]) == FRESH
    ensures 1 <= interval <= MAX_U64 ==> TaskInv(FRESH, interval)
    ensures Sum([]) == NO_TRAFFIC
  {
    hide Unsaturated;
  }

  lemma OneMoreTurn(interval: nat, turns: seq<Turn>, i: nat)
    requires 0 < i <= |turns|
    ensures Turns(interval, turns[..i]) == Turned(Turns(interval, turns[..i - 1]), interval, turns[i - 1])
  {
    assert turns[..i][..i - 1] == turns[..i - 1];
    hide Turned;
  }

  lemma PendingOf(t: Task, interval: nat)
    requires TaskInv(t, interval)
    ensures t.pendingPackets > 0 || t.pendingBytes == 0
  {}

  /** A turn is a few steps of the machine. */
  lemma TurnKeepsInv(t: Task, interval: nat, turn: Turn)
    requires TaskInv(t, interval)
    ensures TaskInv(Turned(t, interval, turn), interval)
  {
    hide TaskNext, TaskInv;
    forall u, io | TaskInv(u, interval) ensures TaskInv(TaskNext(u, interval, io), interval) {
      TaskNextKeepsInv(u, interval, io);
    }
  }

  lemma {:induction false} TurnsKeepInv(interval: nat, turns: seq<Turn>)
    requires 1 <= interval <= MAX_U64
    ensures TaskInv(Turns(interval, turns), interval)
    decreases |turns|
  {
    hide TaskInv, Turned;
    if turns == [] {
      FreshTurns(interval, turns);
    } else {
      TurnsKeepInv(interval, turns[..|turns| - 1]);
      TurnKeepsInv(Turns(interval, turns[..|turns| - 1]), interval, turns[|turns| - 1]);
    }
  }

  /** Whatever happens to the loop, on its way out it has reported exactly what it wrote. */
  lemma PumpedWritesAreReported(configured: nat, turns: seq<Turn>)
    requires configured <= MAX_U64
    ensures var t := Turns(Interval(configured), turns);
      t.phase.Ended? && t.phase.ending != NoBandwidth && Unsaturated(|t.delivered|, Interval(configured)) ==>
        t.reportedBytes == |t.delivered| && t.reportedPackets == t.writes
  {
    TurnsKeepInv(Interval(configured), turns);
    ExitsAreExact(Turns(Interval(configured), turns), Interval(configured));
    hide TaskInv, Turns, Unsaturated;
  }
}
