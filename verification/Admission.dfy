/**
 * Connection admission: handlers check two limits, then bump two counters and a gauge, and undo it
 * when their guard is dropped. Each counter access is a step of its own and handlers interleave freely.
 */
module Admission {
  import opened Basics
  import opened Tally

  type Hid = nat
  type User = string

  datatype Limits = Limits(perUser: nat, global: nat)

  datatype Phase =
    | CheckGlobal
    | CheckUser
    | IncUser
    | IncTotal(count: int)
    | GaugeUp(count: int)
    | Live
    | DecTotal(left: int)
    | GaugeDown(left: int)

  datatype Handler = Handler(user: User, phase: Phase)

  datatype State = State(limits: Limits, total: int, counts: map<User, int>, gauge: int, handlers: map<Hid, Handler>)

  datatype Event = Arrive(h: Hid, user: User) | Step(h: Hid)

  function Init(limits: Limits): State { State(limits, 0, map[], 0, map[]) }

  function CountOf(s: State, user: User): int { if user in s.counts then s.counts[user] else 0 }

  function Goto(s: State, h: Hid, k: Handler): State { s.(handlers := s.handlers[h := k]) }

  function Next(s: State, e: Event): State
  {
    match e
    case Arrive(h, user) =>
      if h in s.handlers then s else Goto(s, h, Handler(user, CheckGlobal))
    case Step(h) =>
      if h !in s.handlers then s
      else
        var k := s.handlers[h];
        var n := CountOf(s, k.user);
        match k.phase
        case CheckGlobal =>
          if s.total >= s.limits.global then s.(handlers := s.handlers - {h}) else Goto(s, h, k.(phase := CheckUser))
        case CheckUser =>
          if n >= s.limits.perUser then s.(handlers := s.handlers - {h}) else Goto(s, h, k.(phase := IncUser))
        case IncUser =>
          Goto(s.(counts := s.counts[k.user := n + 1]), h, k.(phase := IncTotal(n + 1)))
        case IncTotal(count) =>
          Goto(s.(total := s.total + 1), h, k.(phase := GaugeUp(count)))
        case GaugeUp(count) =>
          Goto(s.(gauge := s.gauge + if count == 1 then 1 else 0), h, k.(phase := Live))
        case Live =>
          Goto(s.(counts := s.counts[k.user := n - 1]), h, k.(phase := DecTotal(SaturatingPred(n))))
        case DecTotal(left) =>
          Goto(s.(total := s.total - 1), h, k.(phase := GaugeDown(left)))
        case GaugeDown(left) =>
          s.(gauge := s.gauge - if left == 0 then 1 else 0, handlers := s.handlers - {h})
  }

  function Run(s: State, schedule: seq<Event>): State
    decreases |schedule|
  {
    if schedule == [] then s else Run(Next(s, schedule[0]), schedule[1..])
  }

  // ----- who is counted where -----

  /** One of u's handlers between its two updates of the user counter. */
  ghost function Counted(u: User): Handler -> int
  {
    (k: Handler) => if k.user == u && (k.phase.IncTotal? || k.phase.GaugeUp? || k.phase.Live?) then 1 else 0
  }

  /** A handler between its two updates of the total. */
  ghost function InTotal(k: Handler): int
  {
    if k.phase.GaugeUp? || k.phase.Live? || k.phase.DecTotal? then 1 else 0
  }

  /** Past the global check, total not yet bumped. */
  ghost function Undecided(k: Handler): int
  {
    if k.phase.CheckUser? || k.phase.IncUser? || k.phase.IncTotal? then 1 else 0
  }

  /** Past u's check, counter not yet bumped. */
  ghost function UndecidedFor(u: User): Handler -> int
  {
    (k: Handler) => if k.user == u && k.phase.IncUser? then 1 else 0
  }

  /** How far the gauge lags behind the number of users with a connection. */
  ghost function GaugeDebt(k: Handler): int
  {
    match k.phase
    case IncTotal(count) => if count == 1 then 1 else 0
    case GaugeUp(count) => if count == 1 then 1 else 0
    case DecTotal(left) => if left == 0 then -1 else 0
    case GaugeDown(left) => if left == 0 then -1 else 0
    case _ => 0
  }

  /** How far the total lags behind the sum of the user counters. */
  ghost function TotalDebt(k: Handler): int
  {
    if k.phase.IncTotal? then 1 else if k.phase.DecTotal? then -1 else 0
  }

  ghost function Positive(n: int): int { if n > 0 then 1 else 0 }

  ghost predicate Inv(s: State)
  {
    && (forall u :: CountOf(s, u) == Total(s.handlers, Counted(u)))
    && s.total == Total(s.handlers, InTotal)
    && Total(s.counts, Itself) == s.total + Total(s.handlers, TotalDebt)
    && Total(s.counts, Positive) == s.gauge + Total(s.handlers, GaugeDebt)
  }

  /** One handler's change of phase, on every tally at once. */
  lemma HandlerMoves(s: State, h: Hid, k: Handler)
    ensures var hs := s.handlers[h := k];
      && (forall u :: Total(hs, Counted(u)) == Total(s.handlers, Counted(u)) + Counted(u)(k)
                      - (if h in s.handlers then Counted(u)(s.handlers[h]) else 0))
      && Total(hs, InTotal) == Total(s.handlers, InTotal) + InTotal(k)
                               - (if h in s.handlers then InTotal(s.handlers[h]) else 0)
      && Total(hs, TotalDebt) == Total(s.handlers, TotalDebt) + TotalDebt(k)
                                 - (if h in s.handlers then TotalDebt(s.handlers[h]) else 0)
      && Total(hs, GaugeDebt) == Total(s.handlers, GaugeDebt) + GaugeDebt(k)
                                 - (if h in s.handlers then GaugeDebt(s.handlers[h]) else 0)
  {
    forall u ensures Total(s.handlers[h := k], Counted(u)) == Total(s.handlers, Counted(u)) + Counted(u)(k)
                      - (if h in s.handlers then Counted(u)(s.handlers[h]) else 0) {
      TotalUpdate(s.handlers, h, k, Counted(u));
    }
    TotalUpdate(s.handlers, h, k, InTotal);
    TotalUpdate(s.handlers, h, k, TotalDebt);
    TotalUpdate(s.handlers, h, k, GaugeDebt);
  }

  lemma HandlerLeaves(s: State, h: Hid)
    requires h in s.handlers
    ensures var hs := s.handlers - {h};
      && (forall u :: Total(hs, Counted(u)) == Total(s.handlers, Counted(u)) - Counted(u)(s.handlers[h]))
      && Total(hs, InTotal) == Total(s.handlers, InTotal) - InTotal(s.handlers[h])
      && Total(hs, TotalDebt) == Total(s.handlers, TotalDebt) - TotalDebt(s.handlers[h])
      && Total(hs, GaugeDebt) == Total(s.handlers, GaugeDebt) - GaugeDebt(s.handlers[h])
  {
    forall u ensures Total(s.handlers - {h}, Counted(u)) == Total(s.handlers, Counted(u)) - Counted(u)(s.handlers[h]) {
      TotalRemove(s.handlers, h, Counted(u));
    }
    TotalRemove(s.handlers, h, InTotal);
    TotalRemove(s.handlers, h, TotalDebt);
    TotalRemove(s.handlers, h, GaugeDebt);
  }

  lemma CountChanges(s: State, u: User, n: int)
    ensures Total(s.counts[u := n], Itself) == Total(s.counts, Itself) + n - CountOf(s, u)
    ensures Total(s.counts[u := n], Positive) == Total(s.counts, Positive) + Positive(n) - Positive(CountOf(s, u))
  {
    TotalUpdate(s.counts, u, n, Itself);
    TotalUpdate(s.counts, u, n, Positive);
  }

  /** A handler that is counted proves its user's counter positive: no decrement can wrap. */
  lemma LiveIsCounted(s: State, h: Hid)
    requires Inv(s) && h in s.handlers && s.handlers[h].phase.Live?
    ensures CountOf(s, s.handlers[h].user) >= 1
  {
    TotalBounds(s.handlers, Counted(s.handlers[h].user));
  }

  /** The handler that takes this step, before and after, weighed for the user counters. */
  lemma NextKeepsCounts(s: State, e: Event)
    requires Inv(s)
    ensures var s' := Next(s, e);
      forall u :: CountOf(s', u) == Total(s'.handlers, Counted(u))
  {
    hide Total;
    var s' := Next(s, e);
    if e.Arrive? {
      if e.h !in s.handlers { HandlerMoves(s, e.h, Handler(e.user, CheckGlobal)); }
    } else if e.h in s.handlers {
      if e.h in s'.handlers {
        HandlerMoves(s, e.h, s'.handlers[e.h]);
      } else {
        HandlerLeaves(s, e.h);
      }
    }
  }

  lemma NextKeepsSums(s: State, e: Event)
    requires Inv(s)
    ensures var s' := Next(s, e);
      && s'.total == Total(s'.handlers, InTotal)
      && Total(s'.counts, Itself) == s'.total + Total(s'.handlers, TotalDebt)
      && Total(s'.counts, Positive) == s'.gauge + Total(s'.handlers, GaugeDebt)
  {
    hide Total, Counted;
    var s' := Next(s, e);
    if e.Arrive? {
      if e.h !in s.handlers { HandlerMoves(s, e.h, Handler(e.user, CheckGlobal)); }
    } else if e.h in s.handlers {
      var k := s.handlers[e.h];
      if e.h in s'.handlers {
        HandlerMoves(s, e.h, s'.handlers[e.h]);
      } else {
        HandlerLeaves(s, e.h);
      }
      if k.phase.IncUser? {
        CountChanges(s, k.user, CountOf(s, k.user) + 1);
        CountIsNatural(s, k.user);
      } else if k.phase.Live? {
        CountChanges(s, k.user, CountOf(s, k.user) - 1);
        LiveIsCounted(s, e.h);
      }
    }
  }

  lemma NextKeepsInv(s: State, e: Event)
    requires Inv(s)
    ensures Inv(Next(s, e))
  {
    hide Next, Total;
    NextKeepsCounts(s, e);
    NextKeepsSums(s, e);
  }

  lemma CountIsNatural(s: State, u: User)
    requires Inv(s)
    ensures CountOf(s, u) >= 0
  {
    TotalBounds(s.handlers, Counted(u));
  }

  lemma {:induction false} RunKeepsInv(s: State, schedule: seq<Event>)
    requires Inv(s)
    ensures Inv(Run(s, schedule))
    decreases |schedule|
  {
    hide Inv, Next;
    if schedule != [] {
      NextKeepsInv(s, schedule[0]);
      RunKeepsInv(Next(s, schedule[0]), schedule[1..]);
    }
  }

  // ----- when nobody is mid-update -----

  /** Every handler is waiting at the door or holds its guard. */
  ghost predicate Quiet(s: State)
  {
    forall h :: h in s.handlers ==> s.handlers[h].phase.CheckGlobal? || s.handlers[h].phase.Live?
  }

  ghost function IsLive(k: Handler): int { if k.phase.Live? then 1 else 0 }

  /** Users with at least one live guard. */
  ghost function LiveUsers(s: State): set<User>
  {
    set h | h in s.handlers && s.handlers[h].phase.Live? :: s.handlers[h].user
  }

  lemma {:induction false} PositiveIsCardinality(counts: map<User, int>)
    ensures Total(counts, Positive) == |set u | u in counts && counts[u] > 0|
    decreases |counts|
  {
    var active := set u | u in counts && counts[u] > 0;
    if counts == map[] {
      assert active == {};
    } else {
      var u :| u in counts;
      TotalRemove(counts, u, Positive);
      PositiveIsCardinality(counts - {u});
      var rest := set v | v in counts - {u} && (counts - {u})[v] > 0;
      assert active == if counts[u] > 0 then rest + {u} else rest;
    }
  }

  lemma {:induction false} PositiveTotalHasAWitness(m: map<Hid, Handler>, u: User)
    requires Total(m, Counted(u)) > 0
    ensures exists h :: h in m && Counted(u)(m[h]) == 1
    decreases |m|
  {
    if forall h :: h in m ==> Counted(u)(m[h]) == 0 {
      TotalZero(m, Counted(u));
    }
  }

  lemma ActiveAreLive(s: State)
    requires Inv(s) && Quiet(s)
    ensures (set u | u in s.counts && s.counts[u] > 0) == LiveUsers(s)
  {
    forall u | u in s.counts && s.counts[u] > 0 ensures u in LiveUsers(s) {
      assert CountOf(s, u) == Total(s.handlers, Counted(u));
      PositiveTotalHasAWitness(s.handlers, u);
    }
    forall u | u in LiveUsers(s) ensures u in s.counts && s.counts[u] > 0 {
      var h :| h in s.handlers && s.handlers[h].phase.Live? && s.handlers[h].user == u;
      LiveIsCounted(s, h);
    }
  }

  /**
   * In every run, whenever no handler is mid-update, the total is the number of live guards and the
   * sum of the user counters, and the gauge is the number of users with a live connection.
   */
  lemma QuietCountersAgree(limits: Limits, schedule: seq<Event>)
    ensures var s := Run(Init(limits), schedule);
      Quiet(s) ==>
        && s.total == Total(s.handlers, IsLive) == Total(s.counts, Itself)
        && s.gauge == |LiveUsers(s)|
        && forall u :: CountOf(s, u) == Total(s.handlers, Counted(u))
  {
    var s := Run(Init(limits), schedule);
    RunKeepsInv(Init(limits), schedule);
    if Quiet(s) {
      TotalZero(s.handlers, TotalDebt);
      TotalZero(s.handlers, GaugeDebt);
      TotalOrdered(s.handlers, IsLive, InTotal);
      TotalOrdered(s.handlers, InTotal, IsLive);
      PositiveIsCardinality(s.counts);
      ActiveAreLive(s);
    }
  }

  // ----- who is admitted -----

  /** In every state a handler is turned away exactly at a check that finds its limit reached; nothing else stops it. */
  lemma TurnedAwayOnlyAtALimit(s: State, h: Hid)
    requires h in s.handlers
    ensures var k, away := s.handlers[h], h !in Next(s, Step(h)).handlers;
      match k.phase
      case CheckGlobal => away <==> s.total >= s.limits.global
      case CheckUser => away <==> CountOf(s, k.user) >= s.limits.perUser
      case GaugeDown(_) => away
      case _ => !away
  {}

  function Steps(s: State, h: Hid, n: nat): State { if n == 0 then s else Next(Steps(s, h, n - 1), Step(h)) }

  /** Below both limits and undisturbed, a handler that arrives goes live, and is counted once. */
  lemma AdmittedBelowTheLimits(s: State, h: Hid, user: User)
    requires h !in s.handlers && s.total < s.limits.global && CountOf(s, user) < s.limits.perUser
    ensures var s' := Steps(Next(s, Arrive(h, user)), h, 5);
      && h in s'.handlers && s'.handlers[h] == Handler(user, Live)
      && s'.total == s.total + 1 && CountOf(s', user) == CountOf(s, user) + 1
      && s'.gauge == s.gauge + if CountOf(s, user) == 0 then 1 else 0
  {
    hide Next;
    var n := CountOf(s, user) + 1;
    var s0 := Goto(s, h, Handler(user, CheckGlobal));
    var s1, s2 := Goto(s, h, Handler(user, CheckUser)), Goto(s, h, Handler(user, IncUser));
    var counted := s.(counts := s.counts[user := n]);
    var s3, s4 := Goto(counted, h, Handler(user, IncTotal(n))), Goto(counted.(total := s.total + 1), h, Handler(user, GaugeUp(n)));
    PassesTheChecks(s, h, user);
    IsCounted(s, h, user);
    assert Steps(s0, h, 0) == s0;
    assert Steps(s0, h, 1) == s1;
    assert Steps(s0, h, 2) == s2;
    assert Steps(s0, h, 3) == s3;
    assert Steps(s0, h, 4) == s4;
  }

  lemma PassesTheChecks(s: State, h: Hid, user: User)
    requires h !in s.handlers && s.total < s.limits.global && CountOf(s, user) < s.limits.perUser
    ensures Next(s, Arrive(h, user)) == Goto(s, h, Handler(user, CheckGlobal))
    ensures Next(Goto(s, h, Handler(user, CheckGlobal)), Step(h)) == Goto(s, h, Handler(user, CheckUser))
    ensures Next(Goto(s, h, Handler(user, CheckUser)), Step(h)) == Goto(s, h, Handler(user, IncUser))
  {}

  lemma IsCounted(s: State, h: Hid, user: User)
    ensures var n := CountOf(s, user) + 1;
      var counted := s.(counts := s.counts[user := n]);
      var last := Goto(counted.(total := s.total + 1), h, Handler(user, GaugeUp(n)));
      && Next(Goto(s, h, Handler(user, IncUser)), Step(h)) == Goto(counted, h, Handler(user, IncTotal(n)))
      && Next(Goto(counted, h, Handler(user, IncTotal(n))), Step(h)) == last
      && Next(last, Step(h)) == Goto(last.(gauge := s.gauge + if n == 1 then 1 else 0), h, Handler(user, Live))
  {}

  // ----- the limits -----

  /** In every state of the run at most `most` handlers sit between a check and its increment. */
  ghost predicate FewUndecided(s: State, schedule: seq<Event>, most: nat)
    decreases |schedule|
  {
    && Total(s.handlers, Undecided) <= most
    && (forall u :: Total(s.handlers, UndecidedFor(u)) <= most)
    && (schedule != [] ==> FewUndecided(Next(s, schedule[0]), schedule[1..], most))
  }

  ghost predicate WithinLimits(s: State, most: nat)
  {
    && s.total + Total(s.handlers, Undecided) <= s.limits.global - 1 + most
    && forall u :: CountOf(s, u) + Total(s.handlers, UndecidedFor(u)) <= s.limits.perUser - 1 + most
  }

  lemma UndecidedMoves(s: State, h: Hid, k: Handler)
    ensures var hs := s.handlers[h := k];
      && Total(hs, Undecided) == Total(s.handlers, Undecided) + Undecided(k)
                                 - (if h in s.handlers then Undecided(s.handlers[h]) else 0)
      && (forall u :: Total(hs, UndecidedFor(u)) == Total(s.handlers, UndecidedFor(u)) + UndecidedFor(u)(k)
                      - (if h in s.handlers then UndecidedFor(u)(s.handlers[h]) else 0))
  {
    TotalUpdate(s.handlers, h, k, Undecided);
    forall u ensures Total(s.handlers[h := k], UndecidedFor(u)) == Total(s.handlers, UndecidedFor(u)) + UndecidedFor(u)(k)
                      - (if h in s.handlers then UndecidedFor(u)(s.handlers[h]) else 0) {
      TotalUpdate(s.handlers, h, k, UndecidedFor(u));
    }
  }

  lemma UndecidedLeaves(s: State, h: Hid)
    requires h in s.handlers
    ensures var hs := s.handlers - {h};
      && Total(hs, Undecided) == Total(s.handlers, Undecided) - Undecided(s.handlers[h])
      && (forall u :: Total(hs, UndecidedFor(u)) == Total(s.handlers, UndecidedFor(u)) - UndecidedFor(u)(s.handlers[h]))
  {
    TotalRemove(s.handlers, h, Undecided);
    forall u ensures Total(s.handlers - {h}, UndecidedFor(u)) == Total(s.handlers, UndecidedFor(u)) - UndecidedFor(u)(s.handlers[h]) {
      TotalRemove(s.handlers, h, UndecidedFor(u));
    }
  }

  /** A check admits only below the limit; everything else moves a handler or lets one go. */
  lemma NextKeepsLimits(s: State, e: Event, most: nat)
    requires WithinLimits(s, most)
    requires Total(Next(s, e).handlers, Undecided) <= most
    requires forall u :: Total(Next(s, e).handlers, UndecidedFor(u)) <= most
    ensures WithinLimits(Next(s, e), most)
  {
    hide Total;
    var s' := Next(s, e);
    if e.Arrive? {
      if e.h !in s.handlers { UndecidedMoves(s, e.h, Handler(e.user, CheckGlobal)); }
    } else if e.h in s.handlers {
      if e.h in s'.handlers {
        UndecidedMoves(s, e.h, s'.handlers[e.h]);
      } else {
        UndecidedLeaves(s, e.h);
      }
    }
  }

  lemma {:induction false} RunKeepsLimits(s: State, schedule: seq<Event>, most: nat)
    requires WithinLimits(s, most) && FewUndecided(s, schedule, most)
    ensures WithinLimits(Run(s, schedule), most) && Run(s, schedule).limits == s.limits
    decreases |schedule|
  {
    if schedule != [] {
      NextKeepsLimits(s, schedule[0], most);
      RunKeepsLimits(Next(s, schedule[0]), schedule[1..], most);
    }
  }

  /**
   * With at most K handlers between check and increment, no counter exceeds its limit - 1 + K;
   * with K = 1 the limits are respected exactly.
   */
  lemma LimitsHold(limits: Limits, schedule: seq<Event>, most: nat)
    requires most >= 1 && FewUndecided(Init(limits), schedule, most)
    ensures var s := Run(Init(limits), schedule);
      && 0 <= s.total <= limits.global - 1 + most
      && forall u :: 0 <= CountOf(s, u) <= limits.perUser - 1 + most
  {
    var s0 := Init(limits);
    var s := Run(s0, schedule);
    RunKeepsInv(s0, schedule);
    RunKeepsLimits(s0, schedule, most);
    TotalBounds(s.handlers, Undecided);
    TotalBounds(s.handlers, InTotal);
    forall u ensures 0 <= CountOf(s, u) <= limits.perUser - 1 + most {
      TotalBounds(s.handlers, UndecidedFor(u));
      CountIsNatural(s, u);
    }
  }

  lemma {:induction false} RunConcat(s: State, a: seq<Event>, b: seq<Event>)
    ensures Run(s, a + b) == Run(Run(s, a), b)
    decreases |a|
  {
    if a == [] {
      assert a + b == b;
    } else {
      assert (a + b)[1..] == a[1..] + b;
      RunConcat(Next(s, a[0]), a[1..], b);
    }
  }

  // ----- the bound is reached -----

  /** A different user for every number. */
  function Named(i: nat): (name: User)
    ensures |name| == i
  {
    if i == 0 then "" else Named(i - 1) + "a"
  }

  /** Either every handler has its own user, or all have the same. */
  function Name(i: nat, spread: bool): User { if spread then Named(i) else "a" }

  /** A handler arrives and passes both checks. */
  function Enter(i: nat, spread: bool): seq<Event> { [Arrive(i, Name(i, spread)), Step(i), Step(i)] }

  /** It bumps both counters. */
  function Bump(i: nat): seq<Event> { [Step(i), Step(i)] }

  function EnterAll(from: nat, n: nat, spread: bool): seq<Event>
  {
    if n == 0 then [] else EnterAll(from, n - 1, spread) + Enter(from + n - 1, spread)
  }

  function BumpAll(from: nat, n: nat): seq<Event>
  {
    if n == 0 then [] else BumpAll(from, n - 1) + Bump(from + n - 1)
  }

  function OneByOne(n: nat, spread: bool): seq<Event>
  {
    if n == 0 then [] else OneByOne(n - 1, spread) + (Enter(n - 1, spread) + Bump(n - 1))
  }

  /** All but one of the places are taken one by one; then k handlers check before any of them counts. */
  function Race(limit: nat, k: nat, spread: bool): seq<Event>
    requires limit >= 1
  {
    OneByOne(limit - 1, spread) + (EnterAll(limit - 1, k, spread) + BumpAll(limit - 1, k))
  }

  function Racer(i: nat, bumped: nat, spread: bool): Handler
  {
    Handler(Name(i, spread), if i < bumped then GaugeUp(if spread then 1 else i + 1) else IncUser)
  }

  function Counts(bumped: nat, spread: bool): map<User, int>
  {
    if bumped == 0 then map[]
    else if spread then Counts(bumped - 1, spread)[Named(bumped - 1) := 1]
    else map["a" := bumped]
  }

  /** So many handlers have entered, and so many of them have bumped the counters. */
  function Racing(limits: Limits, entered: nat, bumped: nat, spread: bool): State
  {
    State(limits, bumped, Counts(bumped, spread), 0, map i: nat | i < entered :: Racer(i, bumped, spread))
  }

  ghost predicate Undecideds(s: State, n: int) { Total(s.handlers, Undecided) == n }

  lemma UndecidedDominates(s: State)
    ensures forall u :: Total(s.handlers, UndecidedFor(u)) <= Total(s.handlers, Undecided)
  {
    forall u ensures Total(s.handlers, UndecidedFor(u)) <= Total(s.handlers, Undecided) {
      TotalOrdered(s.handlers, UndecidedFor(u), Undecided);
    }
  }

  lemma {:induction false} FewConcat(s: State, a: seq<Event>, b: seq<Event>, most: nat)
    requires FewUndecided(s, a, most) && FewUndecided(Run(s, a), b, most)
    ensures FewUndecided(s, a + b, most) && Run(s, a + b) == Run(Run(s, a), b)
    decreases |a|
  {
    RunConcat(s, a, b);
    if a == [] {
      assert a + b == b;
    } else {
      assert (a + b)[1..] == a[1..] + b;
      FewConcat(Next(s, a[0]), a[1..], b, most);
    }
  }

  lemma FewNow(s: State, most: nat)
    requires Total(s.handlers, Undecided) <= most
    ensures FewUndecided(s, [], most)
  {
    UndecidedDominates(s);
  }

  lemma FewStep(s: State, e: Event, rest: seq<Event>, most: nat)
    requires Total(s.handlers, Undecided) <= most && FewUndecided(Next(s, e), rest, most)
    ensures FewUndecided(s, [e] + rest, most) && Run(s, [e] + rest) == Run(Next(s, e), rest)
  {
    UndecidedDominates(s);
    assert ([e] + rest)[1..] == rest;
    hide Next, Total;
  }

  lemma EnterStates(limits: Limits, entered: nat, bumped: nat, spread: bool)
    requires bumped <= entered && bumped < limits.global && (if spread then 1 else bumped + 1) <= limits.perUser
    ensures var s, name := Racing(limits, entered, bumped, spread), Name(entered, spread);
      var s1 := Next(s, Arrive(entered, name));
      var s2 := Next(s1, Step(entered));
      && s1 == Goto(s, entered, Handler(name, CheckGlobal))
      && s2 == Goto(s1, entered, Handler(name, CheckUser))
      && Next(s2, Step(entered)) == Racing(limits, entered + 1, bumped, spread)
  {
    var s, name := Racing(limits, entered, bumped, spread), Name(entered, spread);
    var s1 := Next(s, Arrive(entered, name));
    var s2 := Next(s1, Step(entered));
    assert s1 == Goto(s, entered, Handler(name, CheckGlobal));
    assert s2 == Goto(s1, entered, Handler(name, CheckUser));
    FreshName(bumped, entered, spread);
    assert Next(s2, Step(entered)).handlers == Racing(limits, entered + 1, bumped, spread).handlers;
  }

  lemma {:induction false} FreshName(bumped: nat, entered: nat, spread: bool)
    requires bumped <= entered
    ensures spread ==> Named(entered) !in Counts(bumped, spread)
    ensures !spread ==> ("a" in Counts(bumped, spread) <==> bumped > 0) && (bumped > 0 ==> Counts(bumped, spread)["a"] == bumped)
    decreases bumped
  {
    if spread && bumped > 0 {
      FreshName(bumped - 1, entered, spread);
      assert |Named(bumped - 1)| != |Named(entered)|;
    }
  }

  lemma EnterRuns(limits: Limits, entered: nat, bumped: nat, spread: bool, most: nat)
    requires bumped <= entered && bumped < limits.global && (if spread then 1 else bumped + 1) <= limits.perUser
    requires Undecideds(Racing(limits, entered, bumped, spread), entered - bumped) && entered - bumped + 1 <= most
    ensures var s := Racing(limits, entered, bumped, spread);
      var s' := Racing(limits, entered + 1, bumped, spread);
      FewUndecided(s, Enter(entered, spread), most) && Run(s, Enter(entered, spread)) == s'
      && Undecideds(s', entered + 1 - bumped)
  {
    var s, name := Racing(limits, entered, bumped, spread), Name(entered, spread);
    var s1 := Goto(s, entered, Handler(name, CheckGlobal));
    var s2 := Goto(s1, entered, Handler(name, CheckUser));
    var s3 := Racing(limits, entered + 1, bumped, spread);
    EnterStates(limits, entered, bumped, spread);
    assert entered !in s.handlers && s3.handlers == s2.handlers[entered := Racer(entered, bumped, spread)];
    UndecidedMoves(s, entered, Handler(name, CheckGlobal));
    UndecidedMoves(s1, entered, Handler(name, CheckUser));
    UndecidedMoves(s2, entered, Racer(entered, bumped, spread));
    hide Racing, Next, Total, Name;
    ThreeSteps(s, s1, s2, s3, Arrive(entered, name), Step(entered), Step(entered), most);
  }

  lemma ThreeSteps(s: State, s1: State, s2: State, s3: State, a: Event, b: Event, c: Event, most: nat)
    requires Next(s, a) == s1 && Next(s1, b) == s2 && Next(s2, c) == s3
    requires Total(s.handlers, Undecided) <= most && Total(s1.handlers, Undecided) <= most
    requires Total(s2.handlers, Undecided) <= most && Total(s3.handlers, Undecided) <= most
    ensures FewUndecided(s, [a, b, c], most) && Run(s, [a, b, c]) == s3
  {
    hide Next;
    FewNow(s3, most);
    FewStep(s2, c, [], most);
    FewStep(s1, b, [c], most);
    FewStep(s, a, [b, c], most);
    assert [c] + [] == [c] && [b] + [c] == [b, c] && [a] + [b, c] == [a, b, c];
  }

  lemma BumpStates(limits: Limits, entered: nat, bumped: nat, spread: bool)
    requires bumped < entered
    ensures var s, name := Racing(limits, entered, bumped, spread), Name(bumped, spread);
      var count := if spread then 1 else bumped + 1;
      var s1 := Goto(s.(counts := Counts(bumped + 1, spread)), bumped, Handler(name, IncTotal(count)));
      && Next(s, Step(bumped)) == s1
      && Next(s1, Step(bumped)) == Racing(limits, entered, bumped + 1, spread)
  {
    var s, name := Racing(limits, entered, bumped, spread), Name(bumped, spread);
    var count := if spread then 1 else bumped + 1;
    FreshName(bumped, bumped, spread);
    assert s.counts[name := count] == Counts(bumped + 1, spread);
    var s1 := Goto(s.(counts := Counts(bumped + 1, spread)), bumped, Handler(name, IncTotal(count)));
    assert Next(s, Step(bumped)) == s1;
    assert Next(s1, Step(bumped)).handlers == Racing(limits, entered, bumped + 1, spread).handlers;
  }

  lemma BumpRuns(limits: Limits, entered: nat, bumped: nat, spread: bool, most: nat)
    requires bumped < entered && entered - bumped <= most
    requires Undecideds(Racing(limits, entered, bumped, spread), entered - bumped)
    ensures var s := Racing(limits, entered, bumped, spread);
      var s' := Racing(limits, entered, bumped + 1, spread);
      FewUndecided(s, Bump(bumped), most) && Run(s, Bump(bumped)) == s' && Undecideds(s', entered - bumped - 1)
  {
    var s, name := Racing(limits, entered, bumped, spread), Name(bumped, spread);
    var count := if spread then 1 else bumped + 1;
    var s1 := Goto(s.(counts := Counts(bumped + 1, spread)), bumped, Handler(name, IncTotal(count)));
    var s2 := Racing(limits, entered, bumped + 1, spread);
    BumpStates(limits, entered, bumped, spread);
    assert s2.handlers == s1.handlers[bumped := Racer(bumped, bumped + 1, spread)];
    UndecidedMoves(s, bumped, Handler(name, IncTotal(count)));
    UndecidedMoves(s1, bumped, Racer(bumped, bumped + 1, spread));
    assert s.handlers[bumped] == Racer(bumped, bumped, spread);
    hide Racing, Next, Total, Name;
    FewNow(s2, most);
    FewStep(s1, Step(bumped), [], most);
    FewStep(s, Step(bumped), [Step(bumped)], most);
    assert [Step(bumped)] + [] == [Step(bumped)] && [Step(bumped)] + [Step(bumped)] == Bump(bumped);
  }

  /** These events lead from one state to the other, with few undecided throughout and so many at the end. */
  ghost predicate Leads(s: State, es: seq<Event>, s': State, most: nat, undecided: int)
  {
    FewUndecided(s, es, most) && Run(s, es) == s' && Undecideds(s', undecided)
  }

  lemma LeadsOn(s: State, a: seq<Event>, s1: State, b: seq<Event>, s2: State, most: nat, n1: int, n2: int)
    requires Leads(s, a, s1, most, n1) && Leads(s1, b, s2, most, n2)
    ensures Leads(s, a + b, s2, most, n2)
  {
    FewConcat(s, a, b, most);
    hide FewUndecided, Run, Undecideds;
  }

  lemma LeadsNowhere(s: State, most: nat, undecided: int)
    requires Undecideds(s, undecided) && undecided <= most
    ensures Leads(s, [], s, most, undecided)
  {
    FewNow(s, most);
  }

  lemma {:induction false} OneByOneRuns(limits: Limits, n: nat, spread: bool, most: nat)
    requires n <= limits.global && (if spread then 1 else n) <= limits.perUser && most >= 1
    ensures Leads(Init(limits), OneByOne(n, spread), Racing(limits, n, n, spread), most, 0)
    decreases n
  {
    hide Racing, Leads, Enter, Bump, Init;
    if n == 0 {
      NobodyIsRacing(limits, spread);
      LeadsNowhere(Init(limits), most, 0);
    } else {
      var s0, s1, s2 := Racing(limits, n - 1, n - 1, spread), Racing(limits, n, n - 1, spread), Racing(limits, n, n, spread);
      OneByOneRuns(limits, n - 1, spread, most);
      EnterLeads(limits, n - 1, n - 1, spread, most, Init(limits), OneByOne(n - 1, spread));
      BumpLeads(limits, n, n - 1, spread, most, s0, Enter(n - 1, spread));
      LeadsOn(s0, Enter(n - 1, spread), s1, Bump(n - 1), s2, most, 1, 0);
      LeadsOn(Init(limits), OneByOne(n - 1, spread), s0, Enter(n - 1, spread) + Bump(n - 1), s2, most, 0, 0);
    }
  }

  lemma NobodyIsRacing(limits: Limits, spread: bool)
    ensures Racing(limits, 0, 0, spread) == Init(limits) && Undecideds(Init(limits), 0)
  {
    assert Racing(limits, 0, 0, spread).counts == map[] && Racing(limits, 0, 0, spread).handlers == map[];
  }

  lemma EnterLeads(limits: Limits, entered: nat, bumped: nat, spread: bool, most: nat, before: State, es: seq<Event>)
    requires bumped <= entered && bumped < limits.global && (if spread then 1 else bumped + 1) <= limits.perUser
    requires Leads(before, es, Racing(limits, entered, bumped, spread), most, entered - bumped) && entered - bumped + 1 <= most
    ensures Leads(Racing(limits, entered, bumped, spread), Enter(entered, spread), Racing(limits, entered + 1, bumped, spread),
                  most, entered + 1 - bumped)
  {
    hide Racing, FewUndecided, Run, Undecideds, Enter;
    EnterRuns(limits, entered, bumped, spread, most);
  }

  lemma BumpLeads(limits: Limits, entered: nat, bumped: nat, spread: bool, most: nat, before: State, es: seq<Event>)
    requires bumped < entered && entered - bumped <= most
    requires Leads(before, es, Racing(limits, entered, bumped, spread), most, entered - bumped)
    ensures Leads(Racing(limits, entered, bumped, spread), Bump(bumped), Racing(limits, entered, bumped + 1, spread),
                  most, entered - bumped - 1)
  {
    hide Racing, FewUndecided, Run, Undecideds, Bump;
    BumpRuns(limits, entered, bumped, spread, most);
  }

  lemma {:induction false} EnterAllRuns(limits: Limits, from: nat, n: nat, spread: bool, most: nat)
    requires from < limits.global && (if spread then 1 else from + 1) <= limits.perUser && n <= most
    requires Undecideds(Racing(limits, from, from, spread), 0)
    ensures Leads(Racing(limits, from, from, spread), EnterAll(from, n, spread), Racing(limits, from + n, from, spread), most, n)
    decreases n
  {
    hide Racing, Leads, Enter, Undecideds;
    var s := Racing(limits, from, from, spread);
    if n == 0 {
      LeadsNowhere(s, most, 0);
    } else {
      EnterAllRuns(limits, from, n - 1, spread, most);
      EnterLeads(limits, from + n - 1, from, spread, most, s, EnterAll(from, n - 1, spread));
      LeadsOn(s, EnterAll(from, n - 1, spread), Racing(limits, from + n - 1, from, spread),
              Enter(from + n - 1, spread), Racing(limits, from + n, from, spread), most, n - 1, n);
    }
  }

  lemma {:induction false} BumpAllRuns(limits: Limits, from: nat, k: nat, n: nat, spread: bool, most: nat)
    requires n <= k <= most && Undecideds(Racing(limits, from + k, from, spread), k)
    ensures Leads(Racing(limits, from + k, from, spread), BumpAll(from, n), Racing(limits, from + k, from + n, spread), most, k - n)
    decreases n
  {
    hide Racing, Leads, Bump, Undecideds;
    var s := Racing(limits, from + k, from, spread);
    if n == 0 {
      LeadsNowhere(s, most, k);
    } else {
      BumpAllRuns(limits, from, k, n - 1, spread, most);
      BumpLeads(limits, from + k, from + n - 1, spread, most, s, BumpAll(from, n - 1));
      LeadsOn(s, BumpAll(from, n - 1), Racing(limits, from + k, from + n - 1, spread),
              Bump(from + n - 1), Racing(limits, from + k, from + n, spread), most, k - n + 1, k - n);
    }
  }

  lemma RaceRuns(limits: Limits, limit: nat, k: nat, spread: bool)
    requires 1 <= limit <= limits.global && (if spread then 1 else limit) <= limits.perUser && k >= 1
    ensures Leads(Init(limits), Race(limit, k, spread), Racing(limits, limit - 1 + k, limit - 1 + k, spread), k, 0)
  {
    hide Racing, Init, OneByOne, EnterAll, BumpAll, FewUndecided, Run, Undecideds;
    var n := limit - 1;
    var s0, s1 := Racing(limits, n, n, spread), Racing(limits, n + k, n, spread);
    var s2 := Racing(limits, n + k, n + k, spread);
    OneByOneRuns(limits, n, spread, k);
    EnterAllRuns(limits, n, k, spread, k);
    BumpAllRuns(limits, n, k, k, spread, k);
    hide Leads;
    LeadsOn(s0, EnterAll(n, k, spread), s1, BumpAll(n, k), s2, k, k, 0);
    LeadsOn(Init(limits), OneByOne(n, spread), s0, EnterAll(n, k, spread) + BumpAll(n, k), s2, k, 0, 0);
  }

  /**
   * The bounds are reached, for all limits and every K: with a user each, K handlers push the total
   * to its limit - 1 + K; of one user, they push that user's count to its limit - 1 + K, if the
   * global limit leaves room for it. No more than K handlers are ever undecided.
   */
  lemma RaceReachesTheBound(limits: Limits, k: nat)
    requires limits.perUser >= 1 && limits.global >= 1 && k >= 1
    ensures FewUndecided(Init(limits), Race(limits.global, k, true), k)
    ensures Run(Init(limits), Race(limits.global, k, true)).total == limits.global - 1 + k
    ensures limits.perUser <= limits.global ==> FewUndecided(Init(limits), Race(limits.perUser, k, false), k)
    ensures limits.perUser <= limits.global ==>
      CountOf(Run(Init(limits), Race(limits.perUser, k, false)), "a") == limits.perUser - 1 + k
  {
    RaceRuns(limits, limits.global, k, true);
    if limits.perUser <= limits.global { RaceRuns(limits, limits.perUser, k, false); }
    hide FewUndecided, Run, Race;
  }
}
