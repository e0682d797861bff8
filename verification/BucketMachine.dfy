/**
 * The bucket under any number of threads. Every load, compare-and-exchange, clock reading and
 * lock operation is a step of its own; a schedule is any sequence of events, and an event that
 * cannot happen in a state leaves it unchanged. Whatever holds after every schedule therefore
 * holds in every interleaving.
 */
module BucketMachine {
  import opened Basics
  import opened TokenBucket

  type Tid = nat

  datatype Op = Consume(amount: nat) | RefillOnly

  datatype Pc =
    | TryLock(op: Op)
    | ReadClock(op: Op)
    | AddLoad(op: Op, now: nat, add: nat)
    | AddCas(op: Op, now: nat, add: nat, current: nat)
    | Stamp(op: Op, now: nat)
    | Unlock(op: Op)
    | Load(amount: nat)
    | Cas(amount: nat, left: nat)  // expects left + amount
    | Finished(outcome: Option<Outcome>)

  /** What a successful compare-and-exchange did to the tokens. */
  datatype Entry = Took(tid: Tid, amount: nat) | Added(tid: Tid, before: nat, after: nat)

  datatype Machine = Machine(
    capacity: nat,
    tokens: nat,
    rate: nat,
    lastRefill: nat,
    lock: Option<Tid>,
    clock: nat,
    threads: map<Tid, Pc>,
    born: nat,
    log: seq<Entry>)

  datatype Event =
    | Tick(nanos: nat)
    | SetRate(rate: nat)
    | Begin(tid: Tid, op: Op)
    | Advance(tid: Tid)

  function Init(capacity: nat, rate: nat, now: nat): Machine
  {
    Machine(capacity, capacity, rate, now, None, now, map[], now, [])
  }

  predicate Busy(m: Machine, tid: Tid)
  {
    tid in m.threads && !m.threads[tid].Finished?
  }

  function Goto(m: Machine, tid: Tid, pc: Pc): Machine
  {
    m.(threads := m.threads[tid := pc])
  }

  /** Where a thread continues once the refill is over. */
  function AfterRefill(op: Op): Pc
  {
    match op
    case Consume(amount) => Load(amount)
    case RefillOnly => Finished(None)
  }

  function Step(m: Machine, tid: Tid): Machine
    requires Busy(m, tid)
  {
    match m.threads[tid]
    case TryLock(op) =>
      if m.lock.None? then Goto(m.(lock := Some(tid)), tid, ReadClock(op))
      else Goto(m, tid, AfterRefill(op))
    case ReadClock(op) =>
      var elapsed := if m.clock >= m.lastRefill then m.clock - m.lastRefill else 0;
      var add := Credit(elapsed, m.rate);
      if add > 0 then Goto(m, tid, AddLoad(op, m.clock, add)) else Goto(m, tid, Unlock(op))
    case AddLoad(op, now, add) =>
      Goto(m, tid, AddCas(op, now, add, m.tokens))
    case AddCas(op, now, add, current) =>
      if m.tokens == current then
        var value := Min(current + add, m.capacity);
        Goto(m.(tokens := value, log := m.log + [Added(tid, current, value)]), tid, Stamp(op, now))
      else Goto(m, tid, AddLoad(op, now, add))
    case Stamp(op, now) =>
      Goto(m.(lastRefill := now), tid, Unlock(op))
    case Unlock(op) =>
      Goto(m.(lock := None), tid, AfterRefill(op))
    case Load(amount) =>
      if m.tokens >= amount then Goto(m, tid, Cas(amount, m.tokens - amount))
      else Goto(m, tid, Finished(Some(Short(amount - m.tokens))))
    case Cas(amount, left) =>
      if m.tokens == left + amount then
        Goto(m.(tokens := left, log := m.log + [Took(tid, amount)]),
             tid, Finished(Some(Taken(amount))))
      else Goto(m, tid, Load(amount))
    case Finished(_) => m
  }

  function Next(m: Machine, e: Event): Machine
  {
    match e
    case Tick(nanos) => m.(clock := m.clock + nanos)
    case SetRate(rate) => m.(rate := rate)
    case Begin(tid, op) => if Busy(m, tid) then m else Goto(m, tid, TryLock(op))
    case Advance(tid) => if Busy(m, tid) then Step(m, tid) else m
  }

  function Run(m: Machine, schedule: seq<Event>): Machine
    decreases |schedule|
  {
    if schedule == [] then m else Run(Next(m, schedule[0]), schedule[1..])
  }

  // ----- what the log says -----

  function TakenOf(e: Entry): nat { if e.Took? then e.amount else 0 }

  function AddedOf(e: Entry): int { if e.Added? then e.after - e.before else 0 }

  function Consumed(log: seq<Entry>): nat
  {
    if log == [] then 0 else Consumed(log[..|log| - 1]) + TakenOf(log[|log| - 1])
  }

  function Refills(log: seq<Entry>): int
  {
    if log == [] then 0 else Refills(log[..|log| - 1]) + AddedOf(log[|log| - 1])
  }

  lemma LogGrows(log: seq<Entry>, e: Entry)
    ensures Consumed(log + [e]) == Consumed(log) + TakenOf(e)
    ensures Refills(log + [e]) == Refills(log) + AddedOf(e)
  {
    assert (log + [e])[..|log|] == log;
  }

  // ----- the invariant -----

  predicate Holding(pc: Pc)
  {
    pc.ReadClock? || pc.AddLoad? || pc.AddCas? || pc.Stamp? || pc.Unlock?
  }

  /** The refill lock has exactly one holder, and it is the thread between try_lock and drop. */
  ghost predicate LockHeldRight(m: Machine)
  {
    && (forall t :: t in m.threads ==> (Holding(m.threads[t]) <==> m.lock == Some(t)))
    && (m.lock.Some? ==> m.lock.value in m.threads)
  }

  /** Up to when time has been turned into tokens: one compare-and-exchange ahead of last_refill. */
  function CreditedUpTo(m: Machine): nat
  {
    if m.lock.Some? && m.lock.value in m.threads && m.threads[m.lock.value].Stamp?
    then m.threads[m.lock.value].now else m.lastRefill
  }

  /** What `elapsed` nanoseconds at `rate` are worth, in tokens times nanoseconds per second. */
  function Worth(elapsed: nat, rate: nat): nat { elapsed * rate }

  ghost predicate PendingRefillSound(m: Machine, limit: nat)
  {
    forall t :: t in m.threads ==>
      match m.threads[t]
      case AddLoad(_, now, add) =>
        m.lastRefill <= now <= m.clock && add * NANOS_PER_SEC <= Worth(now - m.lastRefill, limit)
      case AddCas(_, now, add, _) =>
        m.lastRefill <= now <= m.clock && add * NANOS_PER_SEC <= Worth(now - m.lastRefill, limit)
      case Stamp(_, now) => m.lastRefill <= now <= m.clock
      case _ => true
  }

  ghost predicate Inv(m: Machine, limit: nat)
  {
    && m.tokens <= m.capacity
    && m.rate <= limit
    && m.born <= m.lastRefill <= m.clock
    && LockHeldRight(m)
    && PendingRefillSound(m, limit)
    && m.tokens + Consumed(m.log) == m.capacity + Refills(m.log)
    && CreditedUpTo(m) >= m.born
    && Refills(m.log) * NANOS_PER_SEC <= Worth(CreditedUpTo(m) - m.born, limit)
  }

  lemma WorthMono(x: nat, y: nat, rate: nat, limit: nat)
    requires x <= y && rate <= limit
    ensures Worth(x, rate) <= Worth(y, limit)
  {
    MulMono(x, y, rate);
    MulMono(rate, limit, y);
  }

  lemma WorthAdds(x: nat, y: nat, rate: nat)
    ensures Worth(x + y, rate) == Worth(x, rate) + Worth(y, rate)
  {}

  lemma CreditWithin(elapsed: nat, rate: nat, limit: nat)
    requires rate <= limit
    ensures Credit(elapsed, rate) * NANOS_PER_SEC <= Worth(elapsed, limit)
  {
    CreditIsPaidFor(elapsed, rate);
    WorthMono(elapsed, elapsed, rate, limit);
  }

  lemma StepKeepsLock(m: Machine, tid: Tid)
    requires LockHeldRight(m) && Busy(m, tid)
    ensures LockHeldRight(Step(m, tid))
  {
    assert Holding(m.threads[tid]) <==> m.lock == Some(tid);
  }

  lemma StepKeepsPending(m: Machine, tid: Tid, limit: nat)
    requires LockHeldRight(m) && PendingRefillSound(m, limit) && Busy(m, tid)
    requires m.rate <= limit && m.lastRefill <= m.clock
    ensures PendingRefillSound(Step(m, tid), limit)
    ensures m.lastRefill <= Step(m, tid).lastRefill <= m.clock
  {
    var pc := m.threads[tid];
    if pc.ReadClock? {
      CreditWithin(m.clock - m.lastRefill, m.rate, limit);
    } else if pc.Stamp? {
      assert m.lock == Some(tid);
      forall t | t in m.threads && t != tid ensures !Holding(m.threads[t]) {}
    }
  }

  lemma StepKeepsBalance(m: Machine, tid: Tid)
    requires Busy(m, tid) && m.tokens <= m.capacity
    requires m.tokens + Consumed(m.log) == m.capacity + Refills(m.log)
    ensures var m' := Step(m, tid);
      && m'.tokens <= m'.capacity == m.capacity
      && m'.tokens + Consumed(m'.log) == m'.capacity + Refills(m'.log)
      && (Adds(m, tid) || Refills(m'.log) == Refills(m.log))
  {
    hide Credit, Consumed, Refills;
    var m' := Step(m, tid);
    if m'.log != m.log {
      LogGrows(m.log, m'.log[|m.log|]);
    }
  }

  /** The step is a refill's successful compare-and-exchange. */
  predicate Adds(m: Machine, tid: Tid)
    requires Busy(m, tid)
  {
    m.threads[tid].AddCas? && m.tokens == m.threads[tid].current
  }

  /** The one step that adds tokens also moves the time that has been credited. */
  lemma AddKeepsCredit(m: Machine, tid: Tid, limit: nat)
    requires Inv(m, limit) && Busy(m, tid) && Adds(m, tid)
    ensures var m' := Step(m, tid);
      && CreditedUpTo(m') >= m.born
      && Refills(m'.log) * NANOS_PER_SEC <= Worth(CreditedUpTo(m') - m.born, limit)
  {
    hide Worth, Consumed, Refills;
    var m' := Step(m, tid);
    var now, add := m.threads[tid].now, m.threads[tid].add;
    LogGrows(m.log, Added(tid, m.tokens, m'.tokens));
    assert m.lock == Some(tid);
    assert CreditedUpTo(m) == m.lastRefill && CreditedUpTo(m') == now;
    assert add * NANOS_PER_SEC <= Worth(now - m.lastRefill, limit);
    WorthAdds(m.lastRefill - m.born, now - m.lastRefill, limit);
    assert (m.lastRefill - m.born) + (now - m.lastRefill) == now - m.born;
  }

  lemma StepKeepsCredit(m: Machine, tid: Tid, limit: nat)
    requires Inv(m, limit) && Busy(m, tid)
    ensures var m' := Step(m, tid);
      && CreditedUpTo(m') >= m.born
      && Refills(m'.log) * NANOS_PER_SEC <= Worth(CreditedUpTo(m') - m.born, limit)
  {
    hide Worth, Consumed, Refills, Step, CreditedUpTo;
    if Adds(m, tid) {
      AddKeepsCredit(m, tid, limit);
    } else {
      StepKeepsBalance(m, tid);
      StepKeepsCredited(m, tid);
    }
  }

  /** Every other step leaves the credited time alone: stamping only makes it official. */
  lemma StepKeepsCredited(m: Machine, tid: Tid)
    requires LockHeldRight(m) && Busy(m, tid)
    requires !Adds(m, tid)
    ensures CreditedUpTo(Step(m, tid)) == CreditedUpTo(m)
  {
    assert Holding(m.threads[tid]) <==> m.lock == Some(tid);
  }

  lemma StepKeepsInv(m: Machine, tid: Tid, limit: nat)
    requires Inv(m, limit) && Busy(m, tid)
    ensures Inv(Step(m, tid), limit)
  {
    hide LockHeldRight, PendingRefillSound, Worth, CreditedUpTo, Consumed, Refills;
    StepKeepsLock(m, tid);
    StepKeepsPending(m, tid, limit);
    StepKeepsBalance(m, tid);
    StepKeepsCredit(m, tid, limit);
  }

  lemma NextKeepsInv(m: Machine, e: Event, limit: nat)
    requires Inv(m, limit) && (e.SetRate? ==> e.rate <= limit)
    ensures Inv(Next(m, e), limit)
  {
    if e.Advance? && Busy(m, e.tid) {
      StepKeepsInv(m, e.tid, limit);
    }
  }

  ghost predicate RatesWithin(schedule: seq<Event>, limit: nat)
  {
    forall i :: 0 <= i < |schedule| && schedule[i].SetRate? ==> schedule[i].rate <= limit
  }

  lemma {:induction false} RunKeepsInv(m: Machine, schedule: seq<Event>, limit: nat)
    requires Inv(m, limit) && RatesWithin(schedule, limit)
    ensures Inv(Run(m, schedule), limit)
    decreases |schedule|
  {
    if schedule != [] {
      NextKeepsInv(m, schedule[0], limit);
      assert RatesWithin(schedule[1..], limit);
      RunKeepsInv(Next(m, schedule[0]), schedule[1..], limit);
    }
  }

  lemma InitInv(capacity: nat, rate: nat, now: nat, limit: nat)
    requires rate <= limit
    ensures Inv(Init(capacity, rate, now), limit)
  {}

  lemma {:induction false} RunKeepsConstants(m: Machine, schedule: seq<Event>)
    ensures Run(m, schedule).capacity == m.capacity && Run(m, schedule).born == m.born
    decreases |schedule|
  {
    if schedule != [] {
      RunKeepsConstants(Next(m, schedule[0]), schedule[1..]);
    }
  }

  /**
   * Safety of every interleaving: the tokens stay within [0, capacity], they are the capacity plus
   * what refills added minus what was taken, and what was taken is at most the capacity plus the
   * largest rate ever set times the time since the bucket was created.
   */
  lemma EveryScheduleIsSafe(capacity: nat, rate: nat, start: nat, schedule: seq<Event>, limit: nat)
    requires rate <= limit && RatesWithin(schedule, limit)
    ensures var m := Run(Init(capacity, rate, start), schedule);
      && 0 <= m.tokens <= capacity
      && m.tokens == capacity + Refills(m.log) - Consumed(m.log)
      && start <= m.clock
      && Consumed(m.log) * NANOS_PER_SEC <= capacity * NANOS_PER_SEC + (m.clock - start) * limit
  {
    InitInv(capacity, rate, start, limit);
    RunKeepsInv(Init(capacity, rate, start), schedule, limit);
    RunKeepsConstants(Init(capacity, rate, start), schedule);
    InvBoundsConsumption(Run(Init(capacity, rate, start), schedule), limit);
  }

  lemma InvBoundsConsumption(m: Machine, limit: nat)
    requires Inv(m, limit)
    ensures m.born <= m.clock
    ensures Consumed(m.log) * NANOS_PER_SEC <= m.capacity * NANOS_PER_SEC + (m.clock - m.born) * limit
  {
    assert CreditedUpTo(m) <= m.clock;
    WorthMono(CreditedUpTo(m) - m.born, m.clock - m.born, limit, limit);
  }

  /** The largest rate ever in force. */
  function TopRate(rate: nat, schedule: seq<Event>): (top: nat)
    ensures rate <= top && RatesWithin(schedule, top)
    decreases |schedule|
  {
    if schedule == [] then rate
    else
      var rest := TopRate(if schedule[0].SetRate? then Max(rate, schedule[0].rate) else rate, schedule[1..]);
      assert forall i :: 0 < i < |schedule| ==> schedule[i] == schedule[1..][i - 1];
      rest
  }

  /** Nobody is being served, or has been served, more than the capacity. */
  ghost predicate NoneOversized(m: Machine)
  {
    && (forall t :: t in m.threads && m.threads[t].Cas? ==> m.threads[t].amount <= m.capacity)
    && (forall i :: 0 <= i < |m.log| && m.log[i].Took? ==> m.log[i].amount <= m.capacity)
  }

  lemma NextServesNoneOversized(m: Machine, e: Event)
    requires NoneOversized(m) && m.tokens <= m.capacity
    ensures NoneOversized(Next(m, e))
  {}

  lemma {:induction false} RunServesNoneOversized(m: Machine, schedule: seq<Event>, limit: nat)
    requires Inv(m, limit) && NoneOversized(m) && RatesWithin(schedule, limit)
    ensures NoneOversized(Run(m, schedule))
    decreases |schedule|
  {
    if schedule != [] {
      NextServesNoneOversized(m, schedule[0]);
      NextKeepsInv(m, schedule[0], limit);
      assert RatesWithin(schedule[1..], limit);
      RunServesNoneOversized(Next(m, schedule[0]), schedule[1..], limit);
    }
  }

  /**
   * In every interleaving, a thread that asks for more than the capacity comes out short from its
   * load, never reaches its compare-and-exchange, and nothing above the capacity is ever logged as taken.
   */
  lemma OversizedIsNeverServed(capacity: nat, rate: nat, start: nat, schedule: seq<Event>, tid: Tid)
    ensures var m := Run(Init(capacity, rate, start), schedule);
      && (Busy(m, tid) && m.threads[tid].Load? && m.threads[tid].amount > capacity ==>
            && m.tokens < m.threads[tid].amount
            && Step(m, tid).threads[tid] == Finished(Some(Short(m.threads[tid].amount - m.tokens))))
      && (tid in m.threads && m.threads[tid].Cas? ==> m.threads[tid].amount <= capacity)
      && (forall i :: 0 <= i < |m.log| && m.log[i].Took? ==> m.log[i].amount <= capacity)
  {
    var top := TopRate(rate, schedule);
    EveryScheduleIsSafe(capacity, rate, start, schedule, top);
    InitInv(capacity, rate, start, top);
    RunServesNoneOversized(Init(capacity, rate, start), schedule, top);
    RunKeepsConstants(Init(capacity, rate, start), schedule);
    hide Run, Refills, Consumed;
  }

  // ----- one operation at a time, as a caller of the bucket sees it -----

  /** A step moves one thread; it takes tokens exactly when it leaves that thread Finished(Taken). */
  lemma StepMovesOneThread(m: Machine, tid: Tid)
    requires Busy(m, tid)
    ensures var m' := Step(m, tid);
      && m'.threads.Keys == m.threads.Keys
      && (forall t :: t in m.threads && t != tid ==> m'.threads[t] == m.threads[t])
      && m'.capacity == m.capacity && m'.born == m.born && m'.clock == m.clock
      && Consumed(m'.log) == Consumed(m.log) + TakenBy(m'.threads[tid])
  {
    var m' := Step(m, tid);
    if m'.log != m.log {
      LogGrows(m.log, m'.log[|m.log|]);
    }
  }

  function TakenBy(pc: Pc): nat
  {
    if pc.Finished? && pc.outcome.Some? && pc.outcome.value.Taken? then pc.outcome.value.amount else 0
  }

  /** The pcs through which an operation passes. */
  predicate Serves(pc: Pc, op: Op)
  {
    match pc
    case TryLock(o) => o == op
    case ReadClock(o) => o == op
    case AddLoad(o, _, _) => o == op
    case AddCas(o, _, _, _) => o == op
    case Stamp(o, _) => o == op
    case Unlock(o) => o == op
    case Load(amount) => op == Consume(amount)
    case Cas(amount, _) => op == Consume(amount)
    case Finished(None) => op.RefillOnly?
    case Finished(Some(Taken(amount))) => op == Consume(amount)
    case Finished(Some(Short(_))) => op.Consume?
  }

  lemma StepKeepsServing(m: Machine, tid: Tid, op: Op)
    requires Busy(m, tid) && Serves(m.threads[tid], op)
    ensures Serves(Step(m, tid).threads[tid], op)
  {}

  /** A thread that finds the refill lock taken does without a refill, at once. */
  lemma BusyLockIsSkipped(m: Machine, tid: Tid)
    requires Busy(m, tid) && m.threads[tid].TryLock? && m.lock.Some?
    ensures var m' := Step(m, tid);
      && m'.tokens == m.tokens && m'.lastRefill == m.lastRefill && m'.lock == m.lock
      && m'.threads[tid] == match m.threads[tid].op
                            case Consume(amount) => Load(amount)
                            case RefillOnly => Finished(None)
  {}

  // ----- lock-freedom and linearity -----

  /** The tokens change only by a logged compare-and-exchange. */
  lemma {:induction false} TokensChangeOnlyByCas(m: Machine, schedule: seq<Event>)
    ensures |m.log| <= |Run(m, schedule).log|
    ensures Run(m, schedule).tokens != m.tokens ==> |m.log| < |Run(m, schedule).log|
    decreases |schedule|
  {
    if schedule != [] {
      TokensChangeOnlyByCas(Next(m, schedule[0]), schedule[1..]);
    }
  }

  ghost predicate Without(schedule: seq<Event>, tid: Tid)
  {
    forall i :: 0 <= i < |schedule| ==> schedule[i] != Advance(tid)
  }

  lemma {:induction false} OthersLeaveMyPc(m: Machine, schedule: seq<Event>, tid: Tid)
    requires Busy(m, tid) && Without(schedule, tid)
    ensures Busy(Run(m, schedule), tid) && Run(m, schedule).threads[tid] == m.threads[tid]
    decreases |schedule|
  {
    if schedule != [] {
      assert Without(schedule[1..], tid);
      OthersLeaveMyPc(Next(m, schedule[0]), schedule[1..], tid);
    }
  }

  /**
   * Lock-freedom: if a thread has loaded the tokens and, after any activity of the others, its
   * compare-and-exchange fails, then one of the others succeeded in between.
   */
  lemma FailedCasMeansAnotherSucceeded(m: Machine, schedule: seq<Event>, tid: Tid)
    requires Busy(m, tid) && m.threads[tid].Load? && m.tokens >= m.threads[tid].amount
    requires Without(schedule, tid)
    ensures var m1 := Step(m, tid);
      var m2 := Run(m1, schedule);
      && Busy(m2, tid)
      && (Step(m2, tid).threads[tid].Load? ==> |m1.log| < |m2.log|)
  {
    var m1 := Step(m, tid);
    OthersLeaveMyPc(m1, schedule, tid);
    TokensChangeOnlyByCas(m1, schedule);
  }

  /** A thread that runs alone. */
  function Alone(m: Machine, tid: Tid, steps: nat): Machine
    decreases steps
  {
    if steps == 0 then m else Alone(Next(m, Advance(tid)), tid, steps - 1)
  }

  lemma {:induction false} AloneAdds(m: Machine, tid: Tid, a: nat, b: nat)
    ensures Alone(m, tid, a + b) == Alone(Alone(m, tid, a), tid, b)
    decreases a
  {
    if a > 0 { AloneAdds(Next(m, Advance(tid)), tid, a - 1, b); }
  }

  lemma {:induction false} AloneStops(m: Machine, tid: Tid, n: nat)
    requires !Busy(m, tid)
    ensures Alone(m, tid, n) == m
    decreases n
  {
    if n > 0 { AloneStops(m, tid, n - 1); }
  }

  function Seen(m: Machine): Bucket { Bucket(m.capacity, m.tokens, m.rate, m.lastRefill) }

  function Tick1(m: Machine, tid: Tid): Machine { Next(m, Advance(tid)) }

  /** Alone, the refill takes three or six steps and is exactly Refilled. */
  lemma AloneRefills(m: Machine, tid: Tid, op: Op)
    requires Busy(m, tid) && m.threads[tid] == TryLock(op) && m.lock.None?
    ensures var n := if Credit(Elapsed(Seen(m), m.clock), m.rate) > 0 then 6 else 3;
      var m' := Alone(m, tid, n);
      && Seen(m') == Refilled(Seen(m), m.clock)
      && m'.lock.None? && m'.clock == m.clock
      && tid in m'.threads && m'.threads[tid] == AfterRefill(op)
  {
    var m1 := Tick1(m, tid);
    var m2 := Tick1(m1, tid);
    var m3 := Tick1(m2, tid);
    assert Alone(m, tid, 3) == Alone(m1, tid, 2) == Alone(m2, tid, 1) == Alone(m3, tid, 0) == m3;
    var add := Credit(Elapsed(Seen(m), m.clock), m.rate);
    if add > 0 {
      assert m3.threads[tid] == AddCas(op, m.clock, add, m.tokens);
      var m4 := Tick1(m3, tid);
      var m5 := Tick1(m4, tid);
      var m6 := Tick1(m5, tid);
      AloneAdds(m, tid, 3, 3);
      assert Alone(m3, tid, 3) == Alone(m4, tid, 2) == Alone(m5, tid, 1) == Alone(m6, tid, 0) == m6;
    }
  }

  /** Alone, the load and the compare-and-exchange take what is there. */
  lemma AloneTakes(m: Machine, tid: Tid, amount: nat)
    requires Busy(m, tid) && m.threads[tid] == Load(amount)
    ensures var m' := Alone(m, tid, 2);
      && tid in m'.threads && m'.lock == m.lock
      && (if m.tokens >= amount
          then Seen(m') == Seen(m).(tokens := m.tokens - amount) && m'.threads[tid] == Finished(Some(Taken(amount)))
          else Seen(m') == Seen(m) && m'.threads[tid] == Finished(Some(Short(amount - m.tokens))))
  {
    var m1 := Tick1(m, tid);
    var m2 := Tick1(m1, tid);
    assert Alone(m, tid, 2) == Alone(m1, tid, 1) == Alone(m2, tid, 0) == m2;
  }

  /** Run without interference, the steps of a try_consume are exactly TryTake. */
  lemma AloneIsTryTake(m: Machine, tid: Tid, amount: nat)
    requires !Busy(m, tid) && m.lock.None?
    ensures var m' := Alone(Next(m, Begin(tid, Consume(amount))), tid, 8);
      var (b, outcome) := TryTake(Seen(m), m.clock, amount);
      && Seen(m') == b && m'.lock.None?
      && tid in m'.threads && m'.threads[tid] == Finished(Some(outcome))
  {
    var m0 := Next(m, Begin(tid, Consume(amount)));
    var n := if Credit(Elapsed(Seen(m), m.clock), m.rate) > 0 then 6 else 3;
    AloneRefills(m0, tid, Consume(amount));
    var m1 := Alone(m0, tid, n);
    AloneTakes(m1, tid, amount);
    AloneAdds(m0, tid, n, 2);
    AloneStops(Alone(m1, tid, 2), tid, 6 - n);
    AloneAdds(m0, tid, n + 2, 6 - n);
  }
}
