/**
 * The two-level allocator: any number of transfers, each a little program that takes its bytes from
 * the global bucket and then from one of its user's two buckets, while rebalancing changes the rate
 * of the second one. The buckets are the concurrent machines of BucketMachine, so interleavings go
 * down to single loads and compare-and-exchanges.
 */
module Htb {
  import opened Basics
  import opened Tally
  import opened TokenBucket
  import opened FairShare
  import BM = BucketMachine

  type User = string
  type Tid = BM.Tid

  datatype Stage = Global | Guaranteed | Borrowed

  /** First try; the try inside `consume`; the refill after its sleep; a rebalancer's look at the level. */
  datatype Attempt = First | Looping | Refilling | Probing

  /** An attempt to take the bytes from the bucket of a stage, and what came of it. */
  datatype Tried = Tried(stage: Stage, outcome: Outcome)

  /** `trail` is a record of the transfer's attempts so far. */
  datatype Task = Task(user: User, bytes: nat, stage: Stage, attempt: Attempt, trail: seq<Tried>)

  datatype Account = Account(guaranteed: BM.Machine, borrowed: BM.Machine)

  /** What a transfer is told in the end: an error carries what the attempt that ended it fell short by. */
  datatype Reply = Granted | Refused(deficit: nat)

  datatype Allocation = Allocation(tid: Tid, user: User, bytes: nat, source: Stage, reply: Reply, trail: seq<Tried>)

  datatype Engine = Engine(
    config: Config,
    start: nat,
    clock: nat,
    global: BM.Machine,
    users: map<User, Account>,
    tasks: map<Tid, Task>,
    done: seq<Allocation>)

  /** An active user and what it is estimated to want. */
  datatype Demand = Demand(user: User, demand: nat)

  datatype Event =
    | Tick(nanos: nat)
    | Allocate(tid: Tid, user: User, bytes: nat)
    | Probe(tid: Tid, user: User, stage: Stage)
    | Rebalance(active: seq<Demand>, index: nat)
    | Proceed(tid: Tid)

  function Init(c: Config, now: nat): Engine
  {
    Engine(c, now, now, BM.Init(c.burst, c.globalRate, now), map[], map[], [])
  }

  function NewAccount(h: Engine): Account
  {
    Account(BM.Init(h.config.burst, h.config.guaranteed, h.clock),
            BM.Init(h.config.burst, h.config.max, h.clock))
  }

  /** The bucket a task works on; a user that is not known yet has none. */
  function BucketOf(h: Engine, user: User, stage: Stage): BM.Machine
  {
    if stage.Global? || user !in h.users then h.global
    else if stage.Guaranteed? then h.users[user].guaranteed
    else h.users[user].borrowed
  }

  function WithBucket(h: Engine, user: User, stage: Stage, m: BM.Machine): Engine
  {
    if stage.Global? || user !in h.users then h.(global := m)
    else if stage.Guaranteed? then h.(users := h.users[user := h.users[user].(guaranteed := m)])
    else h.(users := h.users[user := h.users[user].(borrowed := m)])
  }

  function OpOf(k: Task): BM.Op
  {
    if k.attempt.First? || k.attempt.Looping? then BM.Consume(k.bytes) else BM.RefillOnly
  }

  /** The transfer starts its next operation on the bucket of its stage. */
  function Enter(h: Engine, tid: Tid, k: Task): Engine
  {
    WithBucket(h.(tasks := h.tasks[tid := k]), k.user, k.stage,
               BM.Next(BucketOf(h, k.user, k.stage), BM.Begin(tid, OpOf(k))))
  }

  function WithUser(h: Engine, user: User): Engine
  {
    if user in h.users then h else h.(users := h.users[user := NewAccount(h)])
  }

  /** Taking tokens either succeeds or errs with the deficit. */
  function ReplyOf(o: Outcome): Reply
  {
    match o case Taken(_) => Granted case Short(deficit) => Refused(deficit)
  }

  function Finish(h: Engine, tid: Tid, k: Task, reply: Reply): Engine
  {
    h.(tasks := h.tasks - {tid}, done := h.done + [Allocation(tid, k.user, k.bytes, k.stage, reply, k.trail)])
  }

  /** What a task does once its bucket operation has returned. */
  function Settle(h: Engine, tid: Tid, k: Task, outcome: Option<Outcome>): Engine
  {
    if k.attempt.Probing? then h.(tasks := h.tasks - {tid})
    else match outcome
      case None => Enter(h, tid, k.(attempt := Looping))
      case Some(o) =>
        var j := k.(trail := k.trail + [Tried(k.stage, o)]);
        if o.Short? && k.stage.Guaranteed? then Enter(h, tid, j.(stage := Borrowed, attempt := First))
        else if o.Short? && k.attempt.First? then Enter(h, tid, j.(attempt := Looping))
        else if o.Short? then Enter(h, tid, j.(attempt := Refilling))
        else if k.stage.Global? then Enter(WithUser(h, k.user), tid, j.(stage := Guaranteed, attempt := First))
        else Finish(h, tid, j, ReplyOf(o))
  }

  /** One step of the transfer's bucket operation. */
  function Moved(h: Engine, tid: Tid): Engine
    requires tid in h.tasks
  {
    var k := h.tasks[tid];
    WithBucket(h, k.user, k.stage, BM.Next(BucketOf(h, k.user, k.stage), BM.Advance(tid)))
  }

  predicate AtFinish(m: BM.Machine, tid: Tid)
  {
    tid in m.threads && m.threads[tid].Finished?
  }

  function Wants(active: seq<Demand>): (demands: seq<nat>)
    ensures |demands| == |active|
  {
    seq(|active|, i requires 0 <= i < |active| => active[i].demand)
  }

  function TickAll(users: map<User, Account>, nanos: nat): map<User, Account>
  {
    map u | u in users :: Account(BM.Next(users[u].guaranteed, BM.Tick(nanos)),
                                  BM.Next(users[u].borrowed, BM.Tick(nanos)))
  }

  function Next(h: Engine, e: Event): Engine
    requires WellFormed(h.config)
  {
    match e
    case Tick(nanos) =>
      h.(clock := h.clock + nanos, global := BM.Next(h.global, BM.Tick(nanos)), users := TickAll(h.users, nanos))
    case Allocate(tid, user, bytes) =>
      if tid in h.tasks then h else Enter(h, tid, Task(user, bytes, Global, First, []))
    case Probe(tid, user, stage) =>
      if tid in h.tasks || user !in h.users || stage.Global? then h
      else Enter(h, tid, Task(user, 0, stage, Probing, []))
    case Rebalance(active, index) =>
      if index >= |active| || active[index].user !in h.users then h
      else
        var user := active[index].user;
        WithBucket(h, user, Borrowed,
                   BM.Next(h.users[user].borrowed, BM.SetRate(Share(h.config, Wants(active), index))))
    case Proceed(tid) =>
      if tid !in h.tasks then h
      else
        var k := h.tasks[tid];
        var h1 := Moved(h, tid);
        var m := BucketOf(h1, k.user, k.stage);
        if AtFinish(m, tid) then Settle(h1, tid, k, m.threads[tid].outcome) else h1
  }

  lemma NextKeepsConfig(h: Engine, e: Event)
    requires WellFormed(h.config)
    ensures Next(h, e).config == h.config && Next(h, e).start == h.start && Next(h, e).clock >= h.clock
  {
    hide BM.Next, NewAccount, Share, Wants, TickAll, BM.Init;
  }

  function Run(h: Engine, schedule: seq<Event>): Engine
    requires WellFormed(h.config)
    decreases |schedule|
  {
    if schedule == [] then h
    else
      NextKeepsConfig(h, schedule[0]);
      Run(Next(h, schedule[0]), schedule[1..])
  }

  // ----- bytes handed out -----

  predicate Counts(a: Allocation, user: User, source: Stage) { a.user == user && a.source == source }

  function DoneBytes(done: seq<Allocation>): nat
  {
    if done == [] then 0 else DoneBytes(done[..|done| - 1]) + done[|done| - 1].bytes
  }

  function DoneFrom(done: seq<Allocation>, user: User, source: Stage): nat
  {
    if done == [] then 0
    else
      var a := done[|done| - 1];
      DoneFrom(done[..|done| - 1], user, source) + if Counts(a, user, source) then a.bytes else 0
  }

  /** All bytes completed for a user, wherever they came from. */
  function BytesOf(done: seq<Allocation>, user: User): nat
  {
    if done == [] then 0
    else
      var a := done[|done| - 1];
      BytesOf(done[..|done| - 1], user) + if a.user == user then a.bytes else 0
  }

  lemma {:induction false} TwoSources(done: seq<Allocation>, user: User)
    requires forall i :: 0 <= i < |done| ==> !done[i].source.Global?
    ensures BytesOf(done, user) == DoneFrom(done, user, Guaranteed) + DoneFrom(done, user, Borrowed)
    decreases |done|
  {
    if done != [] { TwoSources(done[..|done| - 1], user); }
  }

  /** The bytes of these users. */
  ghost function PerUser(users: set<User>, done: seq<Allocation>): map<User, int>
  {
    map u | u in users :: BytesOf(done, u)
  }

  lemma {:induction false} UsersAddUp(users: set<User>, done: seq<Allocation>)
    requires forall u :: u !in users ==> BytesOf(done, u) == 0
    ensures DoneBytes(done) == Total(PerUser(users, done), Itself)
    decreases |done|
  {
    var all := PerUser(users, done);
    if done == [] {
      TotalZero(all, Itself);
    } else {
      var init, a := done[..|done| - 1], done[|done| - 1];
      forall u | u !in users ensures BytesOf(init, u) == 0 { assert BytesOf(done, u) == 0; }
      UsersAddUp(users, init);
      var before := PerUser(users, init);
      if a.user in users {
        TotalUpdate(before, a.user, BytesOf(done, a.user), Itself);
        assert before[a.user := BytesOf(done, a.user)] == all;
      } else {
        assert BytesOf(done, a.user) == 0;
        assert before == all;
      }
    }
  }

  lemma DoneGrows(done: seq<Allocation>, a: Allocation)
    ensures DoneBytes(done + [a]) == DoneBytes(done) + a.bytes
    ensures forall u, s :: DoneFrom(done + [a], u, s) == DoneFrom(done, u, s) + if Counts(a, u, s) then a.bytes else 0
  {
    assert (done + [a])[..|done|] == done;
  }

  /** Bytes a task holds that are already out of the global bucket but not yet allocated. */
  ghost function InFlight(k: Task): int
  {
    if k.stage.Global? || k.attempt.Probing? then 0 else k.bytes
  }

  // ----- the invariant, in five parts -----

  ghost predicate BucketOk(h: Engine, m: BM.Machine, limit: nat)
  {
    && BM.Inv(m, limit) && m.capacity == h.config.burst
    && h.start <= m.born && m.clock == h.clock
  }

  ghost predicate BucketsOk(h: Engine)
  {
    && BucketOk(h, h.global, h.config.globalRate)
    && forall u :: u in h.users ==>
         && BucketOk(h, h.users[u].guaranteed, h.config.guaranteed)
         && BucketOk(h, h.users[u].borrowed, h.config.max)
  }

  ghost predicate TaskOk(h: Engine, tid: Tid)
    requires tid in h.tasks
  {
    var k := h.tasks[tid];
    var m := BucketOf(h, k.user, k.stage);
    && (!k.stage.Global? ==> k.user in h.users)
    && (k.attempt.Probing? ==> !k.stage.Global?)
    && BM.Busy(m, tid) && BM.Serves(m.threads[tid], OpOf(k))
  }

  /** Every task but `except` has its operation under way where it should. */
  ghost predicate TasksOk(h: Engine, except: set<Tid>)
  {
    forall t :: t in h.tasks && t !in except ==> TaskOk(h, t)
  }

  ghost predicate At(h: Engine, tid: Tid, user: User, stage: Stage)
  {
    tid in h.tasks && h.tasks[tid].stage == stage && (stage.Global? || h.tasks[tid].user == user)
  }

  /** A bucket is busy only with tasks that are at that bucket. */
  ghost predicate OnlyTasksRun(h: Engine)
  {
    && (forall t :: BM.Busy(h.global, t) ==> At(h, t, "", Global))
    && (forall u, t :: u in h.users && BM.Busy(h.users[u].guaranteed, t) ==> At(h, t, u, Guaranteed))
    && (forall u, t :: u in h.users && BM.Busy(h.users[u].borrowed, t) ==> At(h, t, u, Borrowed))
  }

  /**
   * Bytes out of the global bucket are allocated or in flight; bytes out of a user's bucket are
   * allocated from it; except that `extra` bytes have just left the bucket of (user, stage).
   */
  ghost predicate AccountsOk(h: Engine, user: User, stage: Stage, extra: nat)
  {
    && BM.Consumed(h.global.log)
       == DoneBytes(h.done) + Total(h.tasks, InFlight) + (if stage.Global? then extra else 0)
    && (forall u :: u in h.users ==>
          BM.Consumed(h.users[u].guaranteed.log)
          == DoneFrom(h.done, u, Guaranteed) + (if u == user && stage.Guaranteed? then extra else 0))
    && (forall u :: u in h.users ==>
          BM.Consumed(h.users[u].borrowed.log)
          == DoneFrom(h.done, u, Borrowed) + (if u == user && stage.Borrowed? then extra else 0))
    && (forall u :: u !in h.users ==> DoneFrom(h.done, u, Guaranteed) == DoneFrom(h.done, u, Borrowed) == 0)
  }

  /** What has been completed came from one of the user's own buckets, and was granted. */
  ghost predicate DoneOk(h: Engine)
  {
    forall i :: 0 <= i < |h.done| ==> !h.done[i].source.Global? && h.done[i].reply.Granted?
  }

  ghost predicate Inv(h: Engine)
  {
    && WellFormed(h.config) && BucketsOk(h) && TasksOk(h, {}) && OnlyTasksRun(h) && AccountsOk(h, "", Global, 0)
    && DoneOk(h)
  }

  // ----- pieces of the step -----

  function LimitOf(h: Engine, stage: Stage): nat
  {
    match stage
    case Global => h.config.globalRate
    case Guaranteed => h.config.guaranteed
    case Borrowed => h.config.max
  }

  lemma WithBucketKeepsBuckets(h: Engine, user: User, stage: Stage, m: BM.Machine)
    requires BucketsOk(h) && (stage.Global? || user in h.users)
    requires BucketOk(h, m, LimitOf(h, stage))
    ensures BucketsOk(WithBucket(h, user, stage, m))
  {
    hide BM.Inv, BM.Busy;
  }

  lemma BucketOfIsOk(h: Engine, user: User, stage: Stage)
    requires BucketsOk(h) && (stage.Global? || user in h.users)
    ensures BucketOk(h, BucketOf(h, user, stage), LimitOf(h, stage))
  {}

  lemma BucketNextOk(h: Engine, m: BM.Machine, e: BM.Event, limit: nat)
    requires BucketOk(h, m, limit) && !e.Tick? && (e.SetRate? ==> e.rate <= limit)
    ensures BucketOk(h, BM.Next(m, e), limit)
  {
    BM.NextKeepsInv(m, e, limit);
  }

  /** A task's identity is at work in no bucket. */
  ghost predicate NowhereBusy(h: Engine, tid: Tid)
  {
    forall u: User, s: Stage :: (s.Global? || u in h.users) ==> !BM.Busy(BucketOf(h, u, s), tid)
  }

  /** Entering an operation at a known bucket. */
  lemma EnterIsSound(h: Engine, tid: Tid, k: Task)
    requires BucketsOk(h) && TasksOk(h, {tid}) && OnlyTasksRun(h)
    requires k.stage.Global? || k.user in h.users
    requires k.attempt.Probing? ==> !k.stage.Global?
    requires NowhereBusy(h, tid)
    ensures var h' := Enter(h, tid, k);
      && BucketsOk(h') && TasksOk(h', {}) && OnlyTasksRun(h')
  {
    hide BucketOk, OnlyTasksRun;
    var m := BucketOf(h, k.user, k.stage);
    var m' := BM.Next(m, BM.Begin(tid, OpOf(k)));
    BucketOfIsOk(h, k.user, k.stage);
    BucketNextOk(h, m, BM.Begin(tid, OpOf(k)), LimitOf(h, k.stage));
    var g := h.(tasks := h.tasks[tid := k]);
    TasksDoNotMatterToBuckets(h, g);
    assert BucketOk(g, m', LimitOf(g, k.stage)) by { SameClockSameBucket(h, g, m', LimitOf(h, k.stage)); }
    WithBucketKeepsBuckets(g, k.user, k.stage, m');
    var h' := Enter(h, tid, k);
    assert BM.Busy(m', tid) && m'.threads[tid] == BM.TryLock(OpOf(k));
    forall t | t in h'.tasks ensures TaskOk(h', t) {
      if t != tid { TaskIsSomewhere(h, t); TaskFrame(h, h', t); }
    }
    EnterKeepsOnly(h, tid, k);
  }

  lemma TasksDoNotMatterToBuckets(h: Engine, g: Engine)
    requires BucketsOk(h) && g == h.(tasks := g.tasks)
    ensures BucketsOk(g)
  {
    hide BM.Inv;
  }

  lemma EnterKeepsOnly(h: Engine, tid: Tid, k: Task)
    requires OnlyTasksRun(h) && (k.stage.Global? || k.user in h.users)
    requires NowhereBusy(h, tid)
    ensures OnlyTasksRun(Enter(h, tid, k))
  {
    var h' := Enter(h, tid, k);
    forall t | BM.Busy(h'.global, t) ensures At(h', t, "", Global) {
      if t != tid { assert BM.Busy(h.global, t); } else { assert !BM.Busy(BucketOf(h, "", Global), tid); }
    }
    forall u, t | u in h'.users && BM.Busy(h'.users[u].guaranteed, t) ensures At(h', t, u, Guaranteed) {
      if t != tid { assert BM.Busy(h.users[u].guaranteed, t); } else { assert !BM.Busy(BucketOf(h, u, Guaranteed), tid); }
    }
    forall u, t | u in h'.users && BM.Busy(h'.users[u].borrowed, t) ensures At(h', t, u, Borrowed) {
      if t != tid { assert BM.Busy(h.users[u].borrowed, t); } else { assert !BM.Busy(BucketOf(h, u, Borrowed), tid); }
    }
  }

  /** One step of a task's operation, before the transfer itself reacts. */
  lemma MovedIsSound(h: Engine, tid: Tid)
    requires BucketsOk(h) && TasksOk(h, {}) && OnlyTasksRun(h) && tid in h.tasks
    ensures var k := h.tasks[tid];
      var h1 := Moved(h, tid);
      var m := BucketOf(h1, k.user, k.stage);
      && h1.tasks == h.tasks && h1.users.Keys == h.users.Keys
      && BucketsOk(h1) && TasksOk(h1, {tid}) && OnlyTasksRun(h1)
      && tid in m.threads && BM.Serves(m.threads[tid], OpOf(k))
      && (!AtFinish(m, tid) ==> TasksOk(h1, {}))
      && (AtFinish(m, tid) ==> NowhereBusy(h1, tid))
  {
    hide BM.Step, BM.Serves, BucketOk, OnlyTasksRun, NowhereBusy;
    var k := h.tasks[tid];
    assert TaskOk(h, tid);
    var m0 := BucketOf(h, k.user, k.stage);
    var m := BM.Next(m0, BM.Advance(tid));
    BucketOfIsOk(h, k.user, k.stage);
    BucketNextOk(h, m0, BM.Advance(tid), LimitOf(h, k.stage));
    WithBucketKeepsBuckets(h, k.user, k.stage, m);
    BM.StepMovesOneThread(m0, tid);
    BM.StepKeepsServing(m0, tid, OpOf(k));
    var h1 := Moved(h, tid);
    assert BucketOf(h1, k.user, k.stage) == m;
    forall t | t in h1.tasks && t != tid ensures TaskOk(h1, t) {
      TaskIsSomewhere(h, t);
      TaskFrame(h, h1, t);
    }
    SteppedKeepsOnly(h, k.user, k.stage, m);
    if AtFinish(m, tid) {
      assert !BM.Busy(m, tid);
      FinishedIsNowhereBusy(h1, tid);
    }
  }

  lemma FinishedIsNowhereBusy(h: Engine, tid: Tid)
    requires OnlyTasksRun(h) && tid in h.tasks
    requires h.tasks[tid].stage.Global? || h.tasks[tid].user in h.users
    requires !BM.Busy(BucketOf(h, h.tasks[tid].user, h.tasks[tid].stage), tid)
    ensures NowhereBusy(h, tid)
  {
    forall u: User, s: Stage | s.Global? || u in h.users ensures !BM.Busy(BucketOf(h, u, s), tid) {
      match s
      case Global => assert BM.Busy(h.global, tid) ==> At(h, tid, "", Global);
      case Guaranteed => assert BM.Busy(h.users[u].guaranteed, tid) ==> At(h, tid, u, Guaranteed);
      case Borrowed => assert BM.Busy(h.users[u].borrowed, tid) ==> At(h, tid, u, Borrowed);
    }
  }

  lemma NewcomerIsNowhereBusy(h: Engine, tid: Tid)
    requires OnlyTasksRun(h) && tid !in h.tasks
    ensures NowhereBusy(h, tid)
  {
    forall u: User, s: Stage | s.Global? || u in h.users ensures !BM.Busy(BucketOf(h, u, s), tid) {
      match s
      case Global => assert BM.Busy(h.global, tid) ==> At(h, tid, "", Global);
      case Guaranteed => assert BM.Busy(h.users[u].guaranteed, tid) ==> At(h, tid, u, Guaranteed);
      case Borrowed => assert BM.Busy(h.users[u].borrowed, tid) ==> At(h, tid, u, Borrowed);
    }
  }

  /** Replacing a bucket by one that is busy with no more threads. */
  lemma SteppedKeepsOnly(h: Engine, user: User, stage: Stage, m: BM.Machine)
    requires OnlyTasksRun(h) && (stage.Global? || user in h.users)
    requires forall t :: BM.Busy(m, t) ==> BM.Busy(BucketOf(h, user, stage), t)
    ensures OnlyTasksRun(WithBucket(h, user, stage, m))
  {
    var h' := WithBucket(h, user, stage, m);
    forall t | BM.Busy(h'.global, t) ensures At(h', t, "", Global) {
      assert BM.Busy(h.global, t);
    }
    forall u, t | u in h'.users && BM.Busy(h'.users[u].guaranteed, t) ensures At(h', t, u, Guaranteed) {
      assert BM.Busy(h.users[u].guaranteed, t);
    }
    forall u, t | u in h'.users && BM.Busy(h'.users[u].borrowed, t) ensures At(h', t, u, Borrowed) {
      assert BM.Busy(h.users[u].borrowed, t);
    }
  }

  lemma SameClockSameBucket(h: Engine, h': Engine, m: BM.Machine, limit: nat)
    requires BucketOk(h, m, limit) && h'.config == h.config && h'.start == h.start && h'.clock == h.clock
    ensures BucketOk(h', m, limit)
  {}

  lemma NewAccountIsSound(h: Engine)
    requires BucketOk(h, h.global, h.config.globalRate)
    ensures BucketOk(h, NewAccount(h).guaranteed, h.config.guaranteed)
    ensures BucketOk(h, NewAccount(h).borrowed, h.config.max)
    ensures forall t :: !BM.Busy(NewAccount(h).guaranteed, t) && !BM.Busy(NewAccount(h).borrowed, t)
  {
    BM.InitInv(h.config.burst, h.config.guaranteed, h.clock, h.config.guaranteed);
    BM.InitInv(h.config.burst, h.config.max, h.clock, h.config.max);
  }

  lemma WithUserKeepsBuckets(h: Engine, user: User)
    requires BucketsOk(h)
    ensures BucketsOk(WithUser(h, user))
  {
    hide BM.Inv, BM.Init, BucketOk, NewAccount;
    var h' := WithUser(h, user);
    NewAccountIsSound(h);
    SameClockSameBucket(h, h', h.global, h.config.globalRate);
    forall u | u in h'.users
      ensures BucketOk(h', h'.users[u].guaranteed, h.config.guaranteed)
      ensures BucketOk(h', h'.users[u].borrowed, h.config.max)
    {
      SameClockSameBucket(h, h', h'.users[u].guaranteed, h.config.guaranteed);
      SameClockSameBucket(h, h', h'.users[u].borrowed, h.config.max);
    }
  }

  /** A task whose bucket is as it was is as sound as it was. */
  lemma TaskFrame(h: Engine, h': Engine, t: Tid)
    requires t in h.tasks && TaskOk(h, t)
    requires t in h'.tasks && h'.tasks[t] == h.tasks[t] && h.users.Keys <= h'.users.Keys
    requires var k := h.tasks[t];
      var m, m' := BucketOf(h, k.user, k.stage), BucketOf(h', k.user, k.stage);
      t in m'.threads && (t in m.threads ==> m'.threads[t] == m.threads[t])
    ensures TaskOk(h', t)
  {}

  lemma WithUserKeepsTasks(h: Engine, except: set<Tid>, user: User)
    requires TasksOk(h, except)
    ensures TasksOk(WithUser(h, user), except)
  {
    hide NewAccount, TaskOk;
    var h' := WithUser(h, user);
    forall t | t in h'.tasks && t !in except ensures TaskOk(h', t) {
      TaskIsSomewhere(h, t);
      TaskFrame(h, h', t);
    }
  }

  lemma TaskIsSomewhere(h: Engine, t: Tid)
    requires t in h.tasks && TaskOk(h, t)
    ensures var k := h.tasks[t];
      (k.stage.Global? || k.user in h.users) && BM.Busy(BucketOf(h, k.user, k.stage), t)
  {}

  lemma WithUserKeepsOnly(h: Engine, user: User)
    requires OnlyTasksRun(h) && BucketOk(h, h.global, h.config.globalRate)
    ensures OnlyTasksRun(WithUser(h, user))
  {
    NewAccountIsSound(h);
    hide NewAccount, BucketOk;
  }

  lemma WithUserKeepsIdle(h: Engine, tid: Tid, user: User)
    requires NowhereBusy(h, tid) && BucketOk(h, h.global, h.config.globalRate)
    ensures NowhereBusy(WithUser(h, user), tid)
  {
    NewAccountIsSound(h);
    hide NewAccount, BucketOk;
    var h' := WithUser(h, user);
    forall u: User, s: Stage | s.Global? || u in h'.users ensures !BM.Busy(BucketOf(h', u, s), tid) {
      assert (s.Global? || u in h.users) ==> !BM.Busy(BucketOf(h, u, s), tid);
    }
  }

  /** Creating a user's two buckets disturbs nothing. */
  lemma WithUserIsSound(h: Engine, tid: Tid, user: User)
    requires BucketsOk(h) && TasksOk(h, {tid}) && OnlyTasksRun(h) && NowhereBusy(h, tid)
    ensures var h' := WithUser(h, user);
      BucketsOk(h') && TasksOk(h', {tid}) && OnlyTasksRun(h') && NowhereBusy(h', tid) && user in h'.users
  {
    hide TasksOk, OnlyTasksRun, NowhereBusy, BucketOk;
    WithUserKeepsBuckets(h, user);
    WithUserKeepsTasks(h, {tid}, user);
    WithUserKeepsOnly(h, user);
    WithUserKeepsIdle(h, tid, user);
  }

  lemma LeaveIsSound(h: Engine, tid: Tid)
    requires BucketsOk(h) && TasksOk(h, {tid}) && OnlyTasksRun(h) && NowhereBusy(h, tid)
    ensures var h' := h.(tasks := h.tasks - {tid});
      BucketsOk(h') && TasksOk(h', {}) && OnlyTasksRun(h')
  {
    hide BM.Inv;
    var h' := h.(tasks := h.tasks - {tid});
    forall t | t in h'.tasks ensures TaskOk(h', t) {
      assert TaskOk(h, t);
    }
    forall t | BM.Busy(h'.global, t) ensures At(h', t, "", Global) {
      assert !BM.Busy(BucketOf(h, "", Global), tid);
    }
    forall u, t | u in h'.users && BM.Busy(h'.users[u].guaranteed, t) ensures At(h', t, u, Guaranteed) {
      assert !BM.Busy(BucketOf(h, u, Guaranteed), tid);
    }
    forall u, t | u in h'.users && BM.Busy(h'.users[u].borrowed, t) ensures At(h', t, u, Borrowed) {
      assert !BM.Busy(BucketOf(h, u, Borrowed), tid);
    }
  }

  /** Whatever the outcome, the transfer goes on to a sound state. */
  lemma SettleIsSound(h: Engine, tid: Tid, k: Task, outcome: Option<Outcome>)
    requires WellFormed(h.config) && BucketsOk(h) && TasksOk(h, {tid}) && OnlyTasksRun(h) && NowhereBusy(h, tid)
    requires k.stage.Global? || k.user in h.users
    ensures var h' := Settle(h, tid, k, outcome);
      BucketsOk(h') && TasksOk(h', {}) && OnlyTasksRun(h')
  {
    hide BucketsOk, TasksOk, OnlyTasksRun, NowhereBusy, Enter;
    if k.attempt.Probing? {
      LeaveIsSound(h, tid);
    } else {
      match outcome
      case None => EnterIsSound(h, tid, k.(attempt := Looping));
      case Some(Taken(_)) =>
        var j := k.(trail := k.trail + [Tried(k.stage, outcome.value)]);
        if k.stage.Global? {
          WithUserIsSound(h, tid, k.user);
          EnterIsSound(WithUser(h, k.user), tid, j.(stage := Guaranteed, attempt := First));
        } else {
          LeaveIsSound(h, tid);
          DoneDoesNotMatter(h.(tasks := h.tasks - {tid}), h.done + [Allocation(tid, k.user, k.bytes, k.stage, Granted, j.trail)]);
        }
      case Some(Short(_)) =>
        var j := k.(trail := k.trail + [Tried(k.stage, outcome.value)]);
        if k.stage.Guaranteed? {
          EnterIsSound(h, tid, j.(stage := Borrowed, attempt := First));
        } else if k.attempt.First? {
          EnterIsSound(h, tid, j.(attempt := Looping));
        } else {
          EnterIsSound(h, tid, j.(attempt := Refilling));
        }
    }
  }

  lemma DoneDoesNotMatter(h: Engine, done: seq<Allocation>)
    requires BucketsOk(h) && TasksOk(h, {}) && OnlyTasksRun(h)
    ensures var h' := h.(done := done);
      BucketsOk(h') && TasksOk(h', {}) && OnlyTasksRun(h')
  {
    hide BM.Inv;
    var h' := h.(done := done);
    forall t | t in h'.tasks ensures TaskOk(h', t) {
      assert TaskOk(h, t);
    }
  }

  // ----- accounts -----

  lemma MovedAccounts(h: Engine, tid: Tid)
    requires AccountsOk(h, "", Global, 0) && tid in h.tasks && TaskOk(h, tid)
    ensures var k := h.tasks[tid];
      var h1 := Moved(h, tid);
      var m := BucketOf(h1, k.user, k.stage);
      tid in m.threads && AccountsOk(h1, k.user, k.stage, BM.TakenBy(m.threads[tid]))
  {
    hide BM.Step, BM.Consumed, BM.Serves;
    var k := h.tasks[tid];
    var m0 := BucketOf(h, k.user, k.stage);
    BM.StepMovesOneThread(m0, tid);
    assert BucketOf(Moved(h, tid), k.user, k.stage) == BM.Next(m0, BM.Advance(tid));
  }

  lemma EnterAccounts(h: Engine, tid: Tid, k: Task, user: User, stage: Stage, extra: nat)
    requires AccountsOk(h, user, stage, extra)
    requires tid in h.tasks
    requires InFlight(k) == InFlight(h.tasks[tid]) + (if stage.Global? then extra else 0)
    requires stage.Global? || extra == 0
    ensures AccountsOk(Enter(h, tid, k), "", Global, 0)
  {
    hide BM.Consumed, BM.Next, Enter;
    TotalUpdate(h.tasks, tid, k, InFlight);
    EnterKeepsLogs(h, tid, k);
  }

  /** Starting an operation takes nothing. */
  lemma EnterKeepsLogs(h: Engine, tid: Tid, k: Task)
    ensures var h' := Enter(h, tid, k);
      && h'.tasks == h.tasks[tid := k] && h'.done == h.done && h'.users.Keys == h.users.Keys
      && h'.global.log == h.global.log
      && (forall u :: u in h.users ==> h'.users[u].guaranteed.log == h.users[u].guaranteed.log)
      && (forall u :: u in h.users ==> h'.users[u].borrowed.log == h.users[u].borrowed.log)
  {}

  lemma WithUserAccounts(h: Engine, created: User, user: User, stage: Stage, extra: nat)
    requires AccountsOk(h, user, stage, extra) && stage.Global?
    ensures AccountsOk(WithUser(h, created), user, stage, extra)
  {}

  lemma FinishAccounts(h: Engine, tid: Tid)
    requires tid in h.tasks
    requires var k := h.tasks[tid];
      !k.stage.Global? && !k.attempt.Probing? && k.user in h.users && AccountsOk(h, k.user, k.stage, k.bytes)
    ensures forall trail :: AccountsOk(Finish(h, tid, h.tasks[tid].(trail := trail), Granted), "", Global, 0)
  {
    hide BM.Consumed, DoneBytes, DoneFrom;
    var k := h.tasks[tid];
    TotalRemove(h.tasks, tid, InFlight);
    forall trail ensures AccountsOk(Finish(h, tid, k.(trail := trail), Granted), "", Global, 0) {
      DoneGrows(h.done, Allocation(tid, k.user, k.bytes, k.stage, Granted, trail));
    }
  }

  lemma SettleAccounts(h: Engine, tid: Tid, outcome: Option<Outcome>)
    requires tid in h.tasks
    requires var k := h.tasks[tid];
      && (k.stage.Global? || k.user in h.users)
      && (k.attempt.Probing? ==> !k.stage.Global?)
      && BM.Serves(BM.Finished(outcome), OpOf(k))
      && AccountsOk(h, k.user, k.stage, BM.TakenBy(BM.Finished(outcome)))
    ensures AccountsOk(Settle(h, tid, h.tasks[tid], outcome), "", Global, 0)
  {
    hide AccountsOk, Enter, Finish;
    var k := h.tasks[tid];
    if k.attempt.Probing? {
      LeaveAccounts(h, tid, k.user, k.stage);
    } else {
      match outcome
      case None => EnterAccounts(h, tid, k.(attempt := Looping), k.user, k.stage, 0);
      case Some(Taken(amount)) =>
        var j := k.(trail := k.trail + [Tried(k.stage, outcome.value)]);
        if k.stage.Global? {
          WithUserAccounts(h, k.user, k.user, k.stage, amount);
          EnterAccounts(WithUser(h, k.user), tid, j.(stage := Guaranteed, attempt := First), k.user, k.stage, amount);
        } else {
          FinishAccounts(h, tid);
        }
      case Some(Short(_)) =>
        var j := k.(trail := k.trail + [Tried(k.stage, outcome.value)]);
        if k.stage.Guaranteed? {
          EnterAccounts(h, tid, j.(stage := Borrowed, attempt := First), k.user, k.stage, 0);
        } else if k.attempt.First? {
          EnterAccounts(h, tid, j.(attempt := Looping), k.user, k.stage, 0);
        } else {
          EnterAccounts(h, tid, j.(attempt := Refilling), k.user, k.stage, 0);
        }
    }
  }

  lemma LeaveAccounts(h: Engine, tid: Tid, user: User, stage: Stage)
    requires AccountsOk(h, user, stage, 0) && tid in h.tasks && InFlight(h.tasks[tid]) == 0
    ensures AccountsOk(h.(tasks := h.tasks - {tid}), "", Global, 0)
  {
    hide BM.Consumed;
    TotalRemove(h.tasks, tid, InFlight);
  }

  // ----- every event -----

  lemma ProceedKeepsInv(h: Engine, tid: Tid)
    requires Inv(h) && tid in h.tasks
    ensures Inv(Next(h, Proceed(tid)))
  {
    hide BucketsOk, TasksOk, OnlyTasksRun, NowhereBusy, AccountsOk, Moved, Settle, BM.Serves;
    var k := h.tasks[tid];
    assert TaskOk(h, tid) by { TasksOkAt(h, tid); }
    MovedIsSound(h, tid);
    MovedAccounts(h, tid);
    var h1 := Moved(h, tid);
    var m := BucketOf(h1, k.user, k.stage);
    MovedKeepsConfig(h, tid);
    if AtFinish(m, tid) {
      var outcome := m.threads[tid].outcome;
      assert m.threads[tid] == BM.Finished(outcome);
      SettleIsSound(h1, tid, k, outcome);
      SettleAccounts(h1, tid, outcome);
      SettleGrants(h1, tid, k, outcome);
      NextKeepsConfig(h, Proceed(tid));
    } else {
      AccountsWithoutExtra(h1, k.user, k.stage);
    }
  }

  /** A shortfall never ends a transfer, so what it is told in the end is that it was granted. */
  lemma SettleGrants(h: Engine, tid: Tid, k: Task, outcome: Option<Outcome>)
    ensures var h' := Settle(h, tid, k, outcome);
      if tid in h'.tasks || k.attempt.Probing? then h'.done == h.done
      else outcome.Some? && h'.done
             == h.done + [Allocation(tid, k.user, k.bytes, k.stage, Granted, k.trail + [Tried(k.stage, outcome.value)])]
    ensures tid !in Settle(h, tid, k, outcome).tasks && !k.attempt.Probing? ==> !k.stage.Global?
  {
    hide BM.Next, NewAccount;
  }

  lemma TasksOkAt(h: Engine, tid: Tid)
    requires TasksOk(h, {}) && tid in h.tasks
    ensures TaskOk(h, tid)
  {}

  lemma MovedKeepsConfig(h: Engine, tid: Tid)
    requires tid in h.tasks
    ensures Moved(h, tid).config == h.config && Moved(h, tid).done == h.done
  {}

  lemma AccountsWithoutExtra(h: Engine, user: User, stage: Stage)
    requires AccountsOk(h, user, stage, 0)
    ensures AccountsOk(h, "", Global, 0)
  {}

  lemma AllocateKeepsInv(h: Engine, tid: Tid, k: Task)
    requires Inv(h) && tid !in h.tasks
    requires k.stage.Global? || (k.user in h.users && k.attempt.Probing?)
    requires k.attempt.Probing? ==> !k.stage.Global?
    ensures Inv(Enter(h, tid, k))
  {
    hide BucketsOk, TaskOk, NowhereBusy, OnlyTasksRun, AccountsOk, Enter;
    NewcomerIsNowhereBusy(h, tid);
    assert TasksOk(h, {tid});
    EnterIsSound(h, tid, k);
    NewcomerAccounts(h, tid, k);
    EnterKeepsConfig(h, tid, k);
  }

  lemma EnterKeepsConfig(h: Engine, tid: Tid, k: Task)
    ensures Enter(h, tid, k).config == h.config && Enter(h, tid, k).done == h.done
  {}

  lemma NewcomerAccounts(h: Engine, tid: Tid, k: Task)
    requires AccountsOk(h, "", Global, 0) && tid !in h.tasks && InFlight(k) == 0
    ensures AccountsOk(Enter(h, tid, k), "", Global, 0)
  {
    hide BM.Consumed, Enter;
    TotalUpdate(h.tasks, tid, k, InFlight);
    EnterKeepsLogs(h, tid, k);
  }

  lemma RebalanceKeepsInv(h: Engine, user: User, rate: nat)
    requires Inv(h) && user in h.users && rate <= h.config.max
    ensures Inv(WithBucket(h, user, Borrowed, BM.Next(h.users[user].borrowed, BM.SetRate(rate))))
  {
    hide BucketOk, TaskOk, OnlyTasksRun, AccountsOk, DoneOk;
    var m := BM.Next(h.users[user].borrowed, BM.SetRate(rate));
    RateKeepsAccounts(h, user, rate);
    BucketNextOk(h, h.users[user].borrowed, BM.SetRate(rate), h.config.max);
    WithBucketKeepsBuckets(h, user, Borrowed, m);
    SteppedKeepsOnly(h, user, Borrowed, m);
    var h' := WithBucket(h, user, Borrowed, m);
    forall t | t in h'.tasks ensures TaskOk(h', t) {
      TaskIsSomewhere(h, t);
      TaskFrame(h, h', t);
    }
  }

  lemma RateKeepsAccounts(h: Engine, user: User, rate: nat)
    requires AccountsOk(h, "", Global, 0) && DoneOk(h) && user in h.users
    ensures var h' := WithBucket(h, user, Borrowed, BM.Next(h.users[user].borrowed, BM.SetRate(rate)));
      AccountsOk(h', "", Global, 0) && DoneOk(h')
  {
    hide BM.Consumed, DoneFrom, DoneBytes;
  }

  lemma TickKeepsBucket(h: Engine, h': Engine, m: BM.Machine, nanos: nat, limit: nat)
    requires BucketOk(h, m, limit) && h'.config == h.config && h'.start == h.start && h'.clock == h.clock + nanos
    ensures BucketOk(h', BM.Next(m, BM.Tick(nanos)), limit)
  {
    BM.NextKeepsInv(m, BM.Tick(nanos), limit);
  }

  lemma TickKeepsInv(h: Engine, nanos: nat)
    requires Inv(h)
    ensures Inv(Next(h, Tick(nanos)))
  {
    hide BucketOk, TaskOk, OnlyTasksRun, BM.Consumed;
    var h' := Next(h, Tick(nanos));
    TickKeepsBucket(h, h', h.global, nanos, h.config.globalRate);
    forall u | u in h'.users
      ensures BucketOk(h', h'.users[u].guaranteed, h.config.guaranteed)
      ensures BucketOk(h', h'.users[u].borrowed, h.config.max)
    {
      TickKeepsBucket(h, h', h.users[u].guaranteed, nanos, h.config.guaranteed);
      TickKeepsBucket(h, h', h.users[u].borrowed, nanos, h.config.max);
    }
    forall t | t in h'.tasks ensures TaskOk(h', t) {
      TaskIsSomewhere(h, t);
      TaskFrame(h, h', t);
    }
    TickKeepsOnly(h, nanos);
  }

  lemma TickKeepsOnly(h: Engine, nanos: nat)
    requires WellFormed(h.config) && OnlyTasksRun(h)
    ensures OnlyTasksRun(Next(h, Tick(nanos)))
  {
    var h' := Next(h, Tick(nanos));
    forall t | BM.Busy(h'.global, t) ensures At(h', t, "", Global) {
      assert BM.Busy(h.global, t);
    }
    forall u, t | u in h'.users && BM.Busy(h'.users[u].guaranteed, t) ensures At(h', t, u, Guaranteed) {
      assert BM.Busy(h.users[u].guaranteed, t);
    }
    forall u, t | u in h'.users && BM.Busy(h'.users[u].borrowed, t) ensures At(h', t, u, Borrowed) {
      assert BM.Busy(h.users[u].borrowed, t);
    }
  }

  lemma NextKeepsInv(h: Engine, e: Event)
    requires Inv(h)
    ensures Inv(Next(h, e))
  {
    hide BucketsOk, TasksOk, OnlyTasksRun, AccountsOk, Enter, WithBucket, Share;
    match e
    case Tick(nanos) => TickKeepsInv(h, nanos);
    case Allocate(tid, user, bytes) =>
      if tid !in h.tasks { AllocateKeepsInv(h, tid, Task(user, bytes, Global, First, [])); }
    case Probe(tid, user, stage) =>
      if tid !in h.tasks && user in h.users && !stage.Global? {
        AllocateKeepsInv(h, tid, Task(user, 0, stage, Probing, []));
      }
    case Rebalance(active, index) =>
      if index < |active| && active[index].user in h.users {
        ShareInRange(h.config, Wants(active), index);
        RebalanceKeepsInv(h, active[index].user, Share(h.config, Wants(active), index));
      }
    case Proceed(tid) =>
      if tid in h.tasks { ProceedKeepsInv(h, tid); }
  }

  lemma {:induction false} RunKeepsInv(h: Engine, schedule: seq<Event>)
    requires Inv(h)
    ensures Inv(Run(h, schedule))
    ensures Run(h, schedule).config == h.config && Run(h, schedule).start == h.start
    decreases |schedule|
  {
    hide Inv, Next;
    assert WellFormed(h.config) by { InvIsWellFormed(h); }
    if schedule != [] {
      NextKeepsInv(h, schedule[0]);
      NextKeepsConfig(h, schedule[0]);
      RunKeepsInv(Next(h, schedule[0]), schedule[1..]);
    }
  }

  lemma InvIsWellFormed(h: Engine)
    requires Inv(h)
    ensures WellFormed(h.config)
  {}

  lemma InitInv(c: Config, now: nat)
    requires WellFormed(c)
    ensures Inv(Init(c, now))
  {
    BM.InitInv(c.burst, c.globalRate, now, c.globalRate);
  }

  // ----- what every run guarantees -----

  lemma BucketBound(h: Engine, m: BM.Machine, limit: nat)
    requires BucketOk(h, m, limit)
    ensures h.start <= h.clock
    ensures BM.Consumed(m.log) * NANOS_PER_SEC <= Budget(h.config.burst, h.clock - h.start, limit)
  {
    BM.InvBoundsConsumption(m, limit);
    MulMono(h.clock - m.born, h.clock - h.start, limit);
  }

  /**
   * In every interleaving and under every rebalancing, each completed allocation was granted and came
   * from exactly one of its user's two buckets; what left those buckets is exactly that, and what left
   * the global bucket is that of all users together and what is in flight.
   */
  lemma EveryRunConserves(c: Config, now: nat, schedule: seq<Event>, user: User)
    requires WellFormed(c)
    ensures var h := Run(Init(c, now), schedule);
      && (forall i :: 0 <= i < |h.done| ==> !h.done[i].source.Global? && h.done[i].reply.Granted?)
      && BM.Consumed(h.global.log) == DoneBytes(h.done) + Total(h.tasks, InFlight)
      && DoneBytes(h.done) == Total(PerUser(h.users.Keys, h.done), Itself)
      && BytesOf(h.done, user) == DoneFrom(h.done, user, Guaranteed) + DoneFrom(h.done, user, Borrowed)
      && (user in h.users ==>
            && BM.Consumed(h.users[user].guaranteed.log) == DoneFrom(h.done, user, Guaranteed)
            && BM.Consumed(h.users[user].borrowed.log) == DoneFrom(h.done, user, Borrowed))
      && (user !in h.users ==> BytesOf(h.done, user) == 0)
  {
    InitInv(c, now);
    RunKeepsInv(Init(c, now), schedule);
    var h := Run(Init(c, now), schedule);
    hide BucketsOk, TasksOk, OnlyTasksRun, Run, BytesOf, DoneFrom, DoneBytes, Total, PerUser, BM.Consumed;
    forall u ensures BytesOf(h.done, u) == DoneFrom(h.done, u, Guaranteed) + DoneFrom(h.done, u, Borrowed) {
      TwoSources(h.done, u);
    }
    UsersAddUp(h.users.Keys, h.done);
  }

  /** All users together get at most one burst plus the global rate over the elapsed time. */
  lemma GlobalBandwidthBound(c: Config, now: nat, schedule: seq<Event>)
    requires WellFormed(c)
    ensures var h := Run(Init(c, now), schedule);
      && now <= h.clock
      && DoneBytes(h.done) * NANOS_PER_SEC <= c.burst * NANOS_PER_SEC + (h.clock - now) * c.globalRate
  {
    hide Run, TasksOk, OnlyTasksRun;
    InitInv(c, now);
    RunKeepsInv(Init(c, now), schedule);
    var h := Run(Init(c, now), schedule);
    BucketBound(h, h.global, c.globalRate);
    TotalBounds(h.tasks, InFlight);
    MulMono(DoneBytes(h.done), BM.Consumed(h.global.log), NANOS_PER_SEC);
  }

  /** One user gets at most two bursts plus its guaranteed and its maximal rate over the elapsed time. */
  lemma UserBandwidthBound(c: Config, now: nat, schedule: seq<Event>, user: User)
    requires WellFormed(c)
    ensures var h := Run(Init(c, now), schedule);
      && now <= h.clock
      && BytesOf(h.done, user) * NANOS_PER_SEC
         <= 2 * c.burst * NANOS_PER_SEC + (h.clock - now) * (c.guaranteed + c.max)
  {
    hide Run, Init, TasksOk, OnlyTasksRun, BM.Inv, BM.Consumed, DoneFrom, DoneBytes, Budget;
    InitInv(c, now);
    InitKeepsConfig(c, now);
    RunKeepsInv(Init(c, now), schedule);
    var h := Run(Init(c, now), schedule);
    BucketBound(h, h.global, c.globalRate);
    TwoSources(h.done, user);
    hide BytesOf;
    if user in h.users {
      BucketBound(h, h.users[user].guaranteed, c.guaranteed);
      BucketBound(h, h.users[user].borrowed, c.max);
      TwoBudgets(c, h.clock - now, DoneFrom(h.done, user, Guaranteed), DoneFrom(h.done, user, Borrowed));
    } else {
      TwoBudgets(c, h.clock - now, 0, 0);
    }
  }

  lemma InitKeepsConfig(c: Config, now: nat)
    ensures Init(c, now).config == c && Init(c, now).start == now
  {}

  lemma TwoBudgets(c: Config, elapsed: nat, a: nat, b: nat)
    requires a * NANOS_PER_SEC <= Budget(c.burst, elapsed, c.guaranteed) || a == 0
    requires b * NANOS_PER_SEC <= Budget(c.burst, elapsed, c.max) || b == 0
    ensures (a + b) * NANOS_PER_SEC <= 2 * c.burst * NANOS_PER_SEC + elapsed * (c.guaranteed + c.max)
  {
    assert elapsed * (c.guaranteed + c.max) == elapsed * c.guaranteed + elapsed * c.max;
  }

  lemma SettleOnTasks(h: Engine, tid: Tid, k: Task, outcome: Option<Outcome>)
    ensures var h' := Settle(h, tid, k, outcome);
      && (forall t :: t != tid ==> (t in h'.tasks <==> t in h.tasks))
      && (forall t :: t != tid && t in h.tasks ==> h'.tasks[t] == h.tasks[t])
      && (tid in h'.tasks && !k.attempt.Probing? ==>
            var k' := h'.tasks[tid];
            k'.user == k.user && k'.bytes == k.bytes && !k'.attempt.Probing?)
  {
    hide BM.Next, NewAccount;
  }

  lemma OthersStay(h: Engine, e: Event, tid: Tid)
    requires WellFormed(h.config) && tid in h.tasks && e != Proceed(tid)
    ensures tid in Next(h, e).tasks && Next(h, e).tasks[tid] == h.tasks[tid]
  {
    hide BM.Next, NewAccount, Share, Settle, TickAll;
    if e.Proceed? && e.tid in h.tasks {
      var h1 := Moved(h, e.tid);
      var m := BucketOf(h1, h.tasks[e.tid].user, h.tasks[e.tid].stage);
      if AtFinish(m, e.tid) { SettleOnTasks(h1, e.tid, h.tasks[e.tid], m.threads[e.tid].outcome); }
    }
  }

  lemma StaysOut(h: Engine, e: Event, tid: Tid)
    requires WellFormed(h.config) && tid !in h.tasks
    requires !((e.Allocate? || e.Probe?) && e.tid == tid)
    ensures tid !in Next(h, e).tasks
  {
    hide BM.Next, NewAccount, Share, Settle, TickAll;
    if e.Proceed? && e.tid in h.tasks {
      var h1 := Moved(h, e.tid);
      var m := BucketOf(h1, h.tasks[e.tid].user, h.tasks[e.tid].stage);
      if AtFinish(m, e.tid) { SettleOnTasks(h1, e.tid, h.tasks[e.tid], m.threads[e.tid].outcome); }
    }
  }

  /** A transfer leaves the engine only by its own step, and is then granted. */
  lemma TransfersEndGranted(h: Engine, e: Event, tid: Tid)
    requires WellFormed(h.config) && tid in h.tasks && !h.tasks[tid].attempt.Probing?
    ensures var h' := Next(h, e);
      var k := h.tasks[tid];
      if tid in h'.tasks
      then !h'.tasks[tid].attempt.Probing? && h'.tasks[tid].user == k.user && h'.tasks[tid].bytes == k.bytes
      else |h'.done| == |h.done| + 1
           && h'.done == h.done + [Allocation(tid, k.user, k.bytes, k.stage, Granted, h'.done[|h.done|].trail)]
  {
    if e != Proceed(tid) {
      OthersStay(h, e, tid);
      hide Next;
    } else {
      hide BM.Next, Settle;
      var h1 := Moved(h, tid);
      var k := h.tasks[tid];
      var m := BucketOf(h1, k.user, k.stage);
      MovedKeepsConfig(h, tid);
      if AtFinish(m, tid) {
        SettleOnTasks(h1, tid, k, m.threads[tid].outcome);
        SettleGrants(h1, tid, k, m.threads[tid].outcome);
      }
    }
  }

  // ----- the order of the buckets -----

  /**
   * Attempts that lead to this stage: the global bucket until it yields, one attempt on the guaranteed
   * bucket, and only if that is short the borrowed one.
   */
  predicate Leads(trail: seq<Tried>, stage: Stage)
    decreases |trail|
  {
    if trail == [] then stage.Global?
    else
      var init, last := trail[..|trail| - 1], trail[|trail| - 1];
      match stage
      case Global => last.stage.Global? && last.outcome.Short? && Leads(init, Global)
      case Guaranteed => last.stage.Global? && last.outcome.Taken? && Leads(init, Global)
      case Borrowed => last.outcome.Short? && !last.stage.Global? && Leads(init, last.stage)
  }

  /** The last attempt took the bytes from the source, and those before it led there. */
  predicate OrderKept(a: Allocation)
  {
    && a.trail != [] && !a.source.Global?
    && a.trail[|a.trail| - 1].stage == a.source && a.trail[|a.trail| - 1].outcome.Taken?
    && Leads(a.trail[..|a.trail| - 1], a.source)
  }

  ghost predicate TrailsOk(h: Engine)
  {
    && (forall t :: t in h.tasks && !h.tasks[t].attempt.Probing? ==> Leads(h.tasks[t].trail, h.tasks[t].stage))
    && (forall i :: 0 <= i < |h.done| ==> OrderKept(h.done[i]))
  }

  lemma SettleKeepsTrails(h: Engine, tid: Tid, k: Task, outcome: Option<Outcome>)
    requires TrailsOk(h) && tid in h.tasks && h.tasks[tid] == k
    ensures TrailsOk(Settle(h, tid, k, outcome))
  {
    hide Enter, TrailsOk, Leads, WithUser, Finish;
    if k.attempt.Probing? {
      LeaveKeepsTrails(h, tid);
    } else {
      LedHere(h, tid);
      if outcome.None? {
        EnterKeepsTrails(h, tid, k.(attempt := Looping));
      } else {
        var o := outcome.value;
        var j := k.(trail := k.trail + [Tried(k.stage, o)]);
        OneMoreTried(k.trail, k.stage, o);
        if o.Short? && k.stage.Guaranteed? {
          EnterKeepsTrails(h, tid, j.(stage := Borrowed, attempt := First));
        } else if o.Short? {
          EnterKeepsTrails(h, tid, j.(attempt := if k.attempt.First? then Looping else Refilling));
        } else if k.stage.Global? {
          WithUserKeepsTrails(h, k.user);
          EnterKeepsTrails(WithUser(h, k.user), tid, j.(stage := Guaranteed, attempt := First));
        } else {
          FinishKeepsTrails(h, tid, j, ReplyOf(o));
        }
      }
    }
  }

  lemma LedHere(h: Engine, tid: Tid)
    requires TrailsOk(h) && tid in h.tasks && !h.tasks[tid].attempt.Probing?
    ensures Leads(h.tasks[tid].trail, h.tasks[tid].stage)
  {}

  lemma EnterKeepsTrails(h: Engine, tid: Tid, k: Task)
    requires TrailsOk(h) && (k.attempt.Probing? || Leads(k.trail, k.stage))
    ensures TrailsOk(Enter(h, tid, k))
  {
    hide Enter, Leads, OrderKept;
    EnterKeepsLogs(h, tid, k);
  }

  lemma WithUserKeepsTrails(h: Engine, user: User)
    requires TrailsOk(h)
    ensures TrailsOk(WithUser(h, user))
  {
    hide Leads, OrderKept, NewAccount;
  }

  lemma LeaveKeepsTrails(h: Engine, tid: Tid)
    requires TrailsOk(h)
    ensures TrailsOk(h.(tasks := h.tasks - {tid}))
  {
    hide Leads, OrderKept;
  }

  lemma FinishKeepsTrails(h: Engine, tid: Tid, j: Task, reply: Reply)
    requires TrailsOk(h) && OrderKept(Allocation(tid, j.user, j.bytes, j.stage, reply, j.trail))
    ensures TrailsOk(Finish(h, tid, j, reply))
  {
    hide Leads, OrderKept;
  }

  lemma OneMoreTried(trail: seq<Tried>, stage: Stage, o: Outcome)
    requires Leads(trail, stage)
    ensures var more := trail + [Tried(stage, o)];
      && more[..|trail|] == trail
      && (o.Short? && stage.Guaranteed? ==> Leads(more, Borrowed))
      && (o.Short? && !stage.Guaranteed? ==> Leads(more, stage))
      && (o.Taken? && stage.Global? ==> Leads(more, Guaranteed))
  {
    assert (trail + [Tried(stage, o)])[..|trail|] == trail;
  }

  lemma NextKeepsTrails(h: Engine, e: Event)
    requires WellFormed(h.config) && TrailsOk(h)
    ensures TrailsOk(Next(h, e))
  {
    hide BM.Next, NewAccount, Share, Settle, OrderKept, Enter;
    match e
    case Tick(nanos) =>
    case Allocate(tid, user, bytes) =>
      EnterKeepsTrails(h, tid, Task(user, bytes, Global, First, []));
    case Probe(tid, user, stage) =>
      EnterKeepsTrails(h, tid, Task(user, 0, stage, Probing, []));
    case Rebalance(active, index) =>
    case Proceed(tid) =>
      if tid in h.tasks {
        var k, h1 := h.tasks[tid], Moved(h, tid);
        var m := BucketOf(h1, k.user, k.stage);
        assert TrailsOk(h1);
        if AtFinish(m, tid) { SettleKeepsTrails(h1, tid, k, m.threads[tid].outcome); }
      }
  }

  lemma {:induction false} RunKeepsTrails(h: Engine, schedule: seq<Event>)
    requires WellFormed(h.config) && TrailsOk(h)
    ensures TrailsOk(Run(h, schedule))
    decreases |schedule|
  {
    hide TrailsOk, Next;
    if schedule != [] {
      NextKeepsConfig(h, schedule[0]);
      NextKeepsTrails(h, schedule[0]);
      RunKeepsTrails(Next(h, schedule[0]), schedule[1..]);
    }
  }

  lemma {:induction false} LeadsShape(trail: seq<Tried>, stage: Stage)
    requires Leads(trail, stage)
    ensures stage.Borrowed? ==> exists j :: 0 <= j < |trail| && trail[j].stage.Guaranteed? && trail[j].outcome.Short?
    ensures !stage.Borrowed? ==> forall j :: 0 <= j < |trail| ==> trail[j].stage.Global?
    decreases |trail|
  {
    if trail != [] {
      var init, last := trail[..|trail| - 1], trail[|trail| - 1];
      LeadsShape(init, if stage.Borrowed? then last.stage else Global);
      if stage.Borrowed? && last.stage.Borrowed? {
        var j :| 0 <= j < |init| && init[j].stage.Guaranteed? && init[j].outcome.Short?;
        assert trail[j] == init[j];
      } else if stage.Borrowed? {
        assert trail[|trail| - 1].stage.Guaranteed?;
      } else {
        forall j | 0 <= j < |trail| ensures trail[j].stage.Global? { assert j < |init| ==> trail[j] == init[j]; }
      }
    }
  }

  /**
   * In every run: what was borrowed had first been refused by the user's guaranteed bucket in an attempt
   * of the same transfer, and what came from the guaranteed bucket came at the first attempt on it,
   * without any on the borrowed one.
   */
  lemma BorrowsOnlyOnAShortfall(c: Config, now: nat, schedule: seq<Event>, i: nat)
    requires WellFormed(c) && i < |Run(Init(c, now), schedule).done|
    ensures var a := Run(Init(c, now), schedule).done[i];
      && OrderKept(a)
      && (a.source.Borrowed? ==>
            exists j :: 0 <= j < |a.trail| - 1 && a.trail[j].stage.Guaranteed? && a.trail[j].outcome.Short?)
      && (a.source.Guaranteed? ==> forall j :: 0 <= j < |a.trail| - 1 ==> a.trail[j].stage.Global?)
  {
    RunKeepsTrails(Init(c, now), schedule);
    var a := Run(Init(c, now), schedule).done[i];
    hide Run, Leads;
    var before := a.trail[..|a.trail| - 1];
    LeadsShape(before, a.source);
    if a.source.Borrowed? {
      var j :| 0 <= j < |before| && before[j].stage.Guaranteed? && before[j].outcome.Short?;
      assert a.trail[j] == before[j];
    } else {
      forall j | 0 <= j < |a.trail| - 1 ensures a.trail[j].stage.Global? { assert a.trail[j] == before[j]; }
    }
  }

  /** The end of a transfer's attempt on its guaranteed bucket decides where its bytes come from. */
  lemma GuaranteedDecides(h: Engine, tid: Tid)
    requires WellFormed(h.config) && tid in h.tasks && h.tasks[tid].stage.Guaranteed? && !h.tasks[tid].attempt.Probing?
    requires h.tasks[tid].user in h.users
    requires var m := BM.Next(h.users[h.tasks[tid].user].guaranteed, BM.Advance(tid));
      AtFinish(m, tid) && m.threads[tid].outcome.Some?
    ensures var k, h' := h.tasks[tid], Next(h, Proceed(tid));
      var o := BM.Next(h.users[k.user].guaranteed, BM.Advance(tid)).threads[tid].outcome.value;
      if o.Taken? then
        && tid !in h'.tasks && |h'.done| == |h.done| + 1
        && h'.done[|h.done|].tid == tid && h'.done[|h.done|].source.Guaranteed? && h'.done[|h.done|].bytes == k.bytes
      else
        tid in h'.tasks && h'.tasks[tid].stage.Borrowed? && h'.tasks[tid].attempt.First? && h'.tasks[tid].bytes == k.bytes
  {
    hide BM.Next;
    var k, h1 := h.tasks[tid], Moved(h, tid);
    assert BucketOf(h1, k.user, k.stage) == BM.Next(h.users[k.user].guaranteed, BM.Advance(tid));
  }

  /** So many steps of one transfer while nothing else happens. */
  function Undisturbed(h: Engine, tid: Tid, n: nat): Engine
    requires WellFormed(h.config)
    decreases n
  {
    if n == 0 then h
    else
      NextKeepsConfig(h, Proceed(tid));
      Undisturbed(Next(h, Proceed(tid)), tid, n - 1)
  }

  ghost predicate AtGuaranteed(h: Engine, tid: Tid)
  {
    && tid in h.tasks && h.tasks[tid].stage.Guaranteed? && !h.tasks[tid].attempt.Probing? && h.tasks[tid].user in h.users
    && BM.Busy(h.users[h.tasks[tid].user].guaranteed, tid)
  }

  lemma {:induction false} UndisturbedSteps(h: Engine, tid: Tid, steps: nat) returns (n: nat)
    requires WellFormed(h.config) && AtGuaranteed(h, tid)
    requires var m := BM.Alone(h.users[h.tasks[tid].user].guaranteed, tid, steps);
      tid in m.threads && m.threads[tid].Finished? && m.threads[tid].outcome.Some? && m.threads[tid].outcome.value.Taken?
    ensures n <= steps
    ensures var k, h' := h.tasks[tid], Undisturbed(h, tid, n);
      && tid !in h'.tasks && |h'.done| == |h.done| + 1
      && h'.done[|h.done|].tid == tid && h'.done[|h.done|].source.Guaranteed? && h'.done[|h.done|].bytes == k.bytes
    decreases steps
  {
    var k := h.tasks[tid];
    var m := h.users[k.user].guaranteed;
    var m1 := BM.Next(m, BM.Advance(tid));
    assert steps > 0 && BM.Alone(m, tid, steps) == BM.Alone(m1, tid, steps - 1);
    var h1 := Next(h, Proceed(tid));
    NextKeepsConfig(h, Proceed(tid));
    if AtFinish(m1, tid) {
      BM.AloneStops(m1, tid, steps - 1);
      GuaranteedDecides(h, tid);
      n := 1;
      assert Undisturbed(h, tid, 1) == Undisturbed(h1, tid, 0);
    } else {
      GoesOn(h, tid);
      hide BM.Next, Next, BM.Alone;
      var rest := UndisturbedSteps(h1, tid, steps - 1);
      n := rest + 1;
    }
  }

  lemma GoesOn(h: Engine, tid: Tid)
    requires WellFormed(h.config) && AtGuaranteed(h, tid)
    requires !AtFinish(BM.Next(h.users[h.tasks[tid].user].guaranteed, BM.Advance(tid)), tid)
    ensures var h1, u := Next(h, Proceed(tid)), h.tasks[tid].user;
      && AtGuaranteed(h1, tid) && h1.tasks == h.tasks && h1.done == h.done
      && h1.users[u].guaranteed == BM.Next(h.users[u].guaranteed, BM.Advance(tid))
  {
    BM.StepMovesOneThread(h.users[h.tasks[tid].user].guaranteed, tid);
    hide BM.Next, Settle;
  }

  /** Undisturbed, a transfer whose bytes are in its guaranteed bucket takes them from there, in at most eight steps. */
  lemma UndisturbedTakesTheGuarantee(h: Engine, tid: Tid) returns (n: nat)
    requires WellFormed(h.config) && AtGuaranteed(h, tid)
    requires var k := h.tasks[tid];
      var m := h.users[k.user].guaranteed;
      && m.threads[tid] == BM.TryLock(BM.Consume(k.bytes)) && m.lock.None?
      && Refilled(BM.Seen(m), m.clock).tokens >= k.bytes
    ensures n <= 8
    ensures var k, h' := h.tasks[tid], Undisturbed(h, tid, n);
      && tid !in h'.tasks && |h'.done| == |h.done| + 1
      && h'.done[|h.done|].tid == tid && h'.done[|h.done|].source.Guaranteed? && h'.done[|h.done|].bytes == k.bytes
  {
    var k := h.tasks[tid];
    var m := h.users[k.user].guaranteed;
    hide BM.Next, Next;
    BM.AloneRefills(m, tid, BM.Consume(k.bytes));
    var refill := if Credit(Elapsed(BM.Seen(m), m.clock), m.rate) > 0 then 6 else 3;
    BM.AloneTakes(BM.Alone(m, tid, refill), tid, k.bytes);
    BM.AloneAdds(m, tid, refill, 2);
    n := UndisturbedSteps(h, tid, refill + 2);
  }

  // ----- rebalancing -----

  /** A rebalance gives a user's borrowed bucket the share of that user's own demand, and changes nothing else. */
  lemma RebalanceSetsTheShare(h: Engine, active: seq<Demand>, i: nat)
    requires WellFormed(h.config) && i < |active| && active[i].user in h.users
    ensures var h', u := Next(h, Rebalance(active, i)), active[i].user;
      && h'.users.Keys == h.users.Keys
      && h'.users[u].borrowed == h.users[u].borrowed.(rate := Share(h.config, Wants(active), i))
      && h'.users[u].guaranteed == h.users[u].guaranteed
      && (forall v :: v in h.users && v != u ==> h'.users[v] == h.users[v])
      && h' == h.(users := h'.users)
  {
    hide Share;
  }

  ghost predicate SharesSet(h: Engine, active: seq<Demand>, n: nat)
    requires WellFormed(h.config) && n <= |active|
  {
    && (forall i :: 0 <= i < |active| ==> active[i].user in h.users)
    && (forall i :: 0 <= i < n ==> h.users[active[i].user].borrowed.rate == Share(h.config, Wants(active), i))
  }

  lemma OneMoreShare(h: Engine, active: seq<Demand>, n: nat)
    requires WellFormed(h.config) && n < |active| && SharesSet(h, active, n)
    requires forall i, j :: 0 <= i < j < |active| ==> active[i].user != active[j].user
    ensures var h' := Next(h, Rebalance(active, n));
      h'.config == h.config && SharesSet(h', active, n + 1)
  {
    NextKeepsConfig(h, Rebalance(active, n));
    RebalanceSetsTheShare(h, active, n);
    hide Next, Share;
  }

  /** The rebalancer's pass over the first n active users. */
  function Rebalanced(h: Engine, active: seq<Demand>, n: nat): (r: Engine)
    requires WellFormed(h.config) && n <= |active|
    ensures r.config == h.config
    decreases n
  {
    if n == 0 then h
    else
      var g := Rebalanced(h, active, n - 1);
      NextKeepsConfig(g, Rebalance(active, n - 1));
      Next(g, Rebalance(active, n - 1))
  }

  /** After a pass, each active user's borrowed bucket has that user's share for its rate. */
  lemma {:induction false} PassSetsEveryShare(h: Engine, active: seq<Demand>, n: nat)
    requires WellFormed(h.config) && n <= |active|
    requires forall i :: 0 <= i < |active| ==> active[i].user in h.users
    requires forall i, j :: 0 <= i < j < |active| ==> active[i].user != active[j].user
    ensures SharesSet(Rebalanced(h, active, n), active, n)
    decreases n
  {
    hide Next, Share;
    if n > 0 {
      PassSetsEveryShare(h, active, n - 1);
      OneMoreShare(Rebalanced(h, active, n - 1), active, n - 1);
    }
  }

  /** The rates in force: the configured ones, and for borrowing something from the guaranteed to the maximal rate. */
  ghost predicate RatesOk(h: Engine)
  {
    && h.global.rate == h.config.globalRate
    && forall u :: u in h.users ==>
         && h.users[u].guaranteed.rate == h.config.guaranteed
         && h.config.guaranteed <= h.users[u].borrowed.rate <= h.config.max
  }

  lemma BucketKeepsItsRate(m: BM.Machine, e: BM.Event)
    requires !e.SetRate?
    ensures BM.Next(m, e).rate == m.rate
  {}

  lemma EnterKeepsRates(h: Engine, tid: Tid, k: Task)
    requires RatesOk(h)
    ensures RatesOk(Enter(h, tid, k))
  {
    BucketKeepsItsRate(BucketOf(h, k.user, k.stage), BM.Begin(tid, OpOf(k)));
    hide BM.Next;
  }

  lemma WithUserKeepsRates(h: Engine, user: User)
    requires WellFormed(h.config) && RatesOk(h)
    ensures RatesOk(WithUser(h, user))
  {}

  lemma SettleKeepsRates(h: Engine, tid: Tid, k: Task, outcome: Option<Outcome>)
    requires WellFormed(h.config) && RatesOk(h)
    ensures RatesOk(Settle(h, tid, k, outcome))
  {
    hide Enter, WithUser, RatesOk;
    WithUserKeepsRates(h, k.user);
    forall j: Task
      ensures RatesOk(Enter(h, tid, j))
      ensures RatesOk(Enter(WithUser(h, k.user), tid, j))
    {
      EnterKeepsRates(h, tid, j);
      EnterKeepsRates(WithUser(h, k.user), tid, j);
    }
    LeaveKeepsRates(h, tid);
  }

  lemma LeaveKeepsRates(h: Engine, tid: Tid)
    requires RatesOk(h)
    ensures forall done :: RatesOk(h.(tasks := h.tasks - {tid}, done := done))
    ensures RatesOk(h.(tasks := h.tasks - {tid}))
  {}

  lemma NextKeepsRates(h: Engine, e: Event)
    requires WellFormed(h.config) && RatesOk(h)
    ensures RatesOk(Next(h, e))
  {
    hide Settle, Share, Enter;
    match e
    case Tick(nanos) =>
    case Allocate(tid, user, bytes) => EnterKeepsRates(h, tid, Task(user, bytes, Global, First, []));
    case Probe(tid, user, stage) => EnterKeepsRates(h, tid, Task(user, 0, stage, Probing, []));
    case Rebalance(active, index) => if index < |active| { ShareInRange(h.config, Wants(active), index); }
    case Proceed(tid) =>
      if tid in h.tasks {
        var k, h1 := h.tasks[tid], Moved(h, tid);
        BucketKeepsItsRate(BucketOf(h, k.user, k.stage), BM.Advance(tid));
        hide BM.Next;
        assert RatesOk(h1) && h1.config == h.config;
        var m := BucketOf(h1, k.user, k.stage);
        if AtFinish(m, tid) { SettleKeepsRates(h1, tid, k, m.threads[tid].outcome); }
      }
  }

  /**
   * In every run the global and the guaranteed buckets fill at their configured rates, and a borrowed
   * one at least at the guaranteed and at most at the maximal rate.
   */
  lemma {:induction false} RatesInForce(h: Engine, schedule: seq<Event>)
    requires WellFormed(h.config) && RatesOk(h)
    ensures RatesOk(Run(h, schedule))
    decreases |schedule|
  {
    hide RatesOk, Next;
    if schedule != [] {
      NextKeepsConfig(h, schedule[0]);
      NextKeepsRates(h, schedule[0]);
      RatesInForce(Next(h, schedule[0]), schedule[1..]);
    }
  }

  /** A user's first transfer finds both its buckets full, the borrowed one at the maximal rate until a rebalance. */
  lemma NewcomersStartFull(h: Engine, user: User)
    requires user !in h.users
    ensures var a := WithUser(h, user).users[user];
      && a.guaranteed.tokens == a.guaranteed.capacity == h.config.burst && a.guaranteed.rate == h.config.guaranteed
      && a.borrowed.tokens == a.borrowed.capacity == h.config.burst && a.borrowed.rate == h.config.max
      && a.guaranteed.lastRefill == a.borrowed.lastRefill == h.clock
  {}

  lemma StartsAtTheConfiguredRate(c: Config, now: nat)
    ensures RatesOk(Init(c, now)) && Init(c, now).global.tokens == Init(c, now).global.capacity == c.burst
  {}
}
