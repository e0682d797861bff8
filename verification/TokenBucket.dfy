/**
 * The token bucket as one caller sees it: refill, take, wait.
 * Time is a natural number of nanoseconds, rates are tokens per second, and the
 * floating-point products of the original are exact floors.
 */
module TokenBucket {
  import opened Basics

  const NANOS_PER_SEC: nat := 1_000_000_000
  const NANOS_PER_MILLI: nat := 1_000_000

  datatype Bucket = Bucket(capacity: nat, tokens: nat, rate: nat, lastRefill: nat)

  datatype Outcome = Taken(amount: nat) | Short(deficit: nat)

  predicate Sound(b: Bucket) { b.tokens <= b.capacity }

  /** Whole tokens earned by `elapsed` nanoseconds at `rate` tokens per second. */
  function Earned(elapsed: nat, rate: nat): nat { elapsed * rate / NANOS_PER_SEC }

  /** What a refill credits: nothing below one millisecond. */
  function Credit(elapsed: nat, rate: nat): nat
  {
    if elapsed >= NANOS_PER_MILLI then Earned(elapsed, rate) else 0
  }

  function Elapsed(b: Bucket, now: nat): nat
  {
    if now >= b.lastRefill then now - b.lastRefill else 0
  }

  function Refilled(b: Bucket, now: nat): Bucket
  {
    var add := Credit(Elapsed(b, now), b.rate);
    if add > 0 then b.(tokens := Min(b.tokens + add, b.capacity), lastRefill := now) else b
  }

  /** Refill, then take `amount` if it is there. */
  function TryTake(b: Bucket, now: nat, amount: nat): (Bucket, Outcome)
  {
    var r := Refilled(b, now);
    if r.tokens >= amount then (r.(tokens := r.tokens - amount), Taken(amount))
    else (r, Short(amount - r.tokens))
  }

  /** The sleep computed for a deficit: at least a millisecond, a second when nothing flows in. */
  function WaitNanos(rate: nat, deficit: nat): nat
  {
    if rate == 0 then NANOS_PER_SEC else Max(deficit * NANOS_PER_SEC / rate, NANOS_PER_MILLI)
  }

  /**
   * The sleep is the exact quotient to the nanosecond, or the one-millisecond minimum if that is
   * longer: no number but this meets these bounds. Without a rate it is a second.
   */
  lemma SleepIsTheQuotient(rate: nat, deficit: nat, w: nat)
    ensures w == WaitNanos(rate, deficit)
       <==> if rate == 0 then w == 1_000_000_000
            else && w >= NANOS_PER_MILLI
                 && deficit * NANOS_PER_SEC < (w + 1) * rate
                 && (w == NANOS_PER_MILLI || w * rate <= deficit * NANOS_PER_SEC)
  {
    if rate == 0 { return; }
    var need := deficit * NANOS_PER_SEC;
    var q := need / rate;
    FloorLoss(need, rate);
    if q < w { MulMono(q + 1, w, rate); }
    if w < q { MulMono(w + 1, q, rate); }
    if q <= w { MulMono(q + 1, w + 1, rate); }
  }

  /**
   * What a refill does, by the clock: nothing within a millisecond; else whole tokens, as many as the
   * elapsed time is worth, up to the capacity; and the time is used up exactly if there was such a token.
   */
  lemma RefillIsExact(b: Bucket, now: nat, tokens: nat)
    requires b.lastRefill <= now
    requires tokens * NANOS_PER_SEC <= (now - b.lastRefill) * b.rate < (tokens + 1) * NANOS_PER_SEC
    ensures Refilled(b, now)
         == if now - b.lastRefill < 1_000_000 || tokens == 0 then b
            else b.(tokens := if b.tokens + tokens <= b.capacity then b.tokens + tokens else b.capacity, lastRefill := now)
  {
    EarnedBounds(now - b.lastRefill, b.rate);
    hide Earned;
    var e := Earned(now - b.lastRefill, b.rate);
    assert e == tokens;
  }

  // ----- arithmetic of the credit -----

  lemma EarnedBounds(elapsed: nat, rate: nat)
    ensures Earned(elapsed, rate) * NANOS_PER_SEC <= elapsed * rate
    ensures elapsed * rate < (Earned(elapsed, rate) + 1) * NANOS_PER_SEC
  {
    var x := elapsed * rate;
    assert x == x / NANOS_PER_SEC * NANOS_PER_SEC + x % NANOS_PER_SEC;
  }

  lemma CreditIsPaidFor(elapsed: nat, rate: nat)
    ensures Credit(elapsed, rate) * NANOS_PER_SEC <= elapsed * rate
  {
    EarnedBounds(elapsed, rate);
  }

  lemma MulMono(a: nat, b: nat, c: nat)
    requires a <= b
    ensures a * c <= b * c
  {}

  /** When nothing is credited, the time left over is worth under a token or under a millisecond. */
  lemma SkippedIsSmall(elapsed: nat, rate: nat)
    requires Credit(elapsed, rate) == 0
    ensures elapsed * rate <= Max(NANOS_PER_SEC, rate * NANOS_PER_MILLI)
  {
    if elapsed >= NANOS_PER_MILLI {
      EarnedBounds(elapsed, rate);
    } else {
      MulMono(elapsed, NANOS_PER_MILLI, rate);
    }
  }

  /** A second refill at the same instant changes nothing. */
  lemma RefillIsIdempotent(b: Bucket, now: nat)
    ensures Refilled(Refilled(b, now), now) == Refilled(b, now)
  {
    var add := Credit(Elapsed(b, now), b.rate);
    if add > 0 {
      assert Elapsed(Refilled(b, now), now) == 0;
    }
  }

  // ----- runs of one caller -----

  /** A take, or (with no amount) a bare refill such as the one `available_tokens` performs. */
  datatype Call = Take(at: nat, amount: nat) | Probe(at: nat)

  ghost predicate InOrder(from: nat, calls: seq<Call>)
    decreases |calls|
  {
    calls == [] || (from <= calls[0].at && InOrder(calls[0].at, calls[1..]))
  }

  function After(b: Bucket, c: Call): Bucket
  {
    match c
    case Take(at, amount) => TryTake(b, at, amount).0
    case Probe(at) => Refilled(b, at)
  }

  /** Tokens handed out by this call if it falls in the window (t1, t2]. */
  function Granted(b: Bucket, c: Call, t1: nat, t2: nat): nat
  {
    if c.Take? && t1 < c.at <= t2 && TryTake(b, c.at, c.amount).1.Taken? then c.amount else 0
  }

  function TakenIn(b: Bucket, calls: seq<Call>, t1: nat, t2: nat): nat
    decreases |calls|
  {
    if calls == [] then 0
    else Granted(b, calls[0], t1, t2) + TakenIn(After(b, calls[0]), calls[1..], t1, t2)
  }

  lemma CallKeepsShape(b: Bucket, c: Call)
    requires Sound(b) && b.lastRefill <= c.at
    ensures var b' := After(b, c);
      && Sound(b') && b'.capacity == b.capacity && b'.rate == b.rate
      && b.lastRefill <= b'.lastRefill <= c.at
  {}

  /** What `held` tokens and `elapsed` nanoseconds can pay for, in tokens times nanoseconds per second. */
  function Budget(held: nat, elapsed: nat, rate: nat): nat
  {
    held * NANOS_PER_SEC + elapsed * rate
  }

  /** What a call can hand out is paid for by the tokens it removes and the time it credits. */
  lemma CallIsPaidFor(b: Bucket, c: Call, t1: nat, t2: nat)
    requires Sound(b) && b.lastRefill <= c.at
    ensures var b' := After(b, c);
      && b.lastRefill <= b'.lastRefill
      && (Granted(b, c, t1, t2) + b'.tokens) * NANOS_PER_SEC
         <= Budget(b.tokens, b'.lastRefill - b.lastRefill, b.rate)
  {
    CreditIsPaidFor(c.at - b.lastRefill, b.rate);
  }

  lemma {:induction false} NothingAfterTheWindow(b: Bucket, calls: seq<Call>, t1: nat, t2: nat)
    requires calls != [] ==> calls[0].at > t2
    requires InOrder(0, calls)
    ensures TakenIn(b, calls, t1, t2) == 0
    decreases |calls|
  {
    if calls != [] {
      InOrderFromZero(calls[0].at, calls[1..]);
      NothingAfterTheWindow(After(b, calls[0]), calls[1..], t1, t2);
    }
  }

  lemma InOrderFromZero(from: nat, calls: seq<Call>)
    requires InOrder(from, calls)
    ensures InOrder(0, calls)
  {}

  /** From any state, what is taken up to t2 is at most the tokens held plus the time since the last refill. */
  lemma {:induction false} TakenIsPaidFor(b: Bucket, calls: seq<Call>, t1: nat, t2: nat)
    requires Sound(b) && b.lastRefill <= t2 && InOrder(b.lastRefill, calls)
    ensures TakenIn(b, calls, t1, t2) * NANOS_PER_SEC
         <= Budget(b.tokens, t2 - b.lastRefill, b.rate)
    decreases |calls|
  {
    if calls == [] {
    } else if calls[0].at > t2 {
      InOrderFromZero(b.lastRefill, calls);
      NothingAfterTheWindow(b, calls, t1, t2);
    } else {
      var b' := After(b, calls[0]);
      CallKeepsShape(b, calls[0]);
      CallIsPaidFor(b, calls[0], t1, t2);
      InOrderWeaken(b'.lastRefill, calls[0].at, calls[1..]);
      TakenIsPaidFor(b', calls[1..], t1, t2);
      PaidForInTurn(Granted(b, calls[0], t1, t2), TakenIn(b', calls[1..], t1, t2),
                    b.tokens, b'.tokens, b.lastRefill, b'.lastRefill, t2, b.rate);
    }
  }

  /** Two consecutive stretches, each paid for, are paid for together. */
  lemma PaidForInTurn(first: nat, rest: nat, had: nat, left: nat, x: nat, y: nat, z: nat, rate: nat)
    requires x <= y <= z
    requires (first + left) * NANOS_PER_SEC <= Budget(had, y - x, rate)
    requires rest * NANOS_PER_SEC <= Budget(left, z - y, rate)
    ensures (first + rest) * NANOS_PER_SEC <= Budget(had, z - x, rate)
  {
    SplitTime(x, y, z, rate);
  }

  lemma SplitTime(x: nat, y: nat, z: nat, rate: nat)
    requires x <= y <= z
    ensures (z - x) * rate == (y - x) * rate + (z - y) * rate
  {}

  lemma InOrderWeaken(low: nat, from: nat, calls: seq<Call>)
    requires low <= from && InOrder(from, calls)
    ensures InOrder(low, calls)
  {}

  /** One burst, the rate over the window's length, and the time a skipped refill carries in; in tokens times nanoseconds per second. */
  function Allowance(capacity: nat, rate: nat, t1: nat, t2: nat): int
  {
    capacity * NANOS_PER_SEC + (t2 - t1) * rate + Max(NANOS_PER_SEC, rate * NANOS_PER_MILLI)
  }

  lemma AllowanceIsPositive(capacity: nat, rate: nat, t1: nat, t2: nat)
    requires t1 <= t2
    ensures Allowance(capacity, rate, t1, t2) >= 0
  {}

  /** Calls up to t1 hand out nothing in the window. */
  lemma CallBeforeTheWindow(b: Bucket, calls: seq<Call>, t1: nat, t2: nat)
    requires calls != [] && calls[0].at <= t1
    ensures TakenIn(b, calls, t1, t2) == TakenIn(After(b, calls[0]), calls[1..], t1, t2)
  {}

  /**
   * The rate promise, for every run, every window (t1, t2] and a constant rate: at most one
   * burst, plus the rate times the window's length, plus the time a skipped refill can carry
   * into the window (a token's worth or a millisecond's worth, whichever is larger).
   */
  lemma {:induction false} WindowBound(b: Bucket, calls: seq<Call>, t1: nat, t2: nat)
    requires Sound(b) && InOrder(b.lastRefill, calls) && t1 <= t2
    ensures TakenIn(b, calls, t1, t2) * NANOS_PER_SEC <= Allowance(b.capacity, b.rate, t1, t2)
    decreases |calls|
  {
    AllowanceIsPositive(b.capacity, b.rate, t1, t2);
    if calls == [] {
    } else if calls[0].at > t2 {
      InOrderFromZero(b.lastRefill, calls);
      NothingAfterTheWindow(b, calls, t1, t2);
    } else if calls[0].at <= t1 {
      var b' := After(b, calls[0]);
      CallKeepsShape(b, calls[0]);
      CallBeforeTheWindow(b, calls, t1, t2);
      InOrderWeaken(b'.lastRefill, calls[0].at, calls[1..]);
      WindowBound(b', calls[1..], t1, t2);
    } else {
      FirstCallInWindow(b, calls, t1, t2);
    }
  }

  lemma FirstCallInWindow(b: Bucket, calls: seq<Call>, t1: nat, t2: nat)
    requires Sound(b) && InOrder(b.lastRefill, calls)
    requires calls != [] && t1 < calls[0].at <= t2
    ensures TakenIn(b, calls, t1, t2) * NANOS_PER_SEC <= Allowance(b.capacity, b.rate, t1, t2)
  {
    var u := calls[0].at;
    var r := Refilled(b, u);
    RefillIsIdempotent(b, u);
    assert After(b, calls[0]) == After(r, calls[0]);
    assert TakenIn(b, calls, t1, t2) == TakenIn(r, calls, t1, t2);
    assert InOrder(r.lastRefill, calls);
    TakenIsPaidFor(r, calls, t1, t2);
    MulMono(r.tokens, b.capacity, NANOS_PER_SEC);
    SplitTime(r.lastRefill, u, t2, b.rate);
    MulMono(t2 - u, t2 - t1, b.rate);
    if r == b {
      SkippedIsSmall(u - b.lastRefill, b.rate);
    }
  }

  /** The carried-over term is real: a two-nanosecond window can yield 1000 tokens more than a burst. */
  lemma WindowSlackIsNeeded()
    ensures var b := Bucket(10_000, 10_000, 1_000_000, 0);
      var calls := [Take(999_999, 10_000), Take(1_000_000, 1000)];
      && Sound(b) && InOrder(b.lastRefill, calls)
      && TakenIn(b, calls, 999_998, 1_000_000) == 11_000
      && 11_000 * NANOS_PER_SEC > b.capacity * NANOS_PER_SEC + (1_000_000 - 999_998) * b.rate
  {
    var b := Bucket(10_000, 10_000, 1_000_000, 0);
    var c0, c1 := Take(999_999, 10_000), Take(1_000_000, 1000);
    var calls := [c0, c1];
    var b1 := After(b, c0);
    assert b1 == Bucket(10_000, 0, 1_000_000, 0);
    assert Refilled(b1, 1_000_000) == Bucket(10_000, 1000, 1_000_000, 1_000_000);
    assert calls[1..] == [c1] && [c1][1..] == [];
    assert Granted(b, c0, 999_998, 1_000_000) == 10_000;
    assert Granted(b1, c1, 999_998, 1_000_000) == 1000;
    assert TakenIn(b1, [c1], 999_998, 1_000_000) == 1000 + TakenIn(After(b1, c1), [], 999_998, 1_000_000);
    assert InOrder(1_000_000, []) && InOrder(999_999, [c1]);
  }

  // ----- consume: sleep and retry -----

  datatype Waiting = Done(bucket: Bucket, at: nat, sleeps: nat) | StillWaiting(bucket: Bucket, at: nat)

  /**
   * The sleep-and-retry loop. A timer never fires early; `late[i]` is how many nanoseconds
   * after the computed instant the i-th sleep ends. The loop is followed for |late| sleeps.
   */
  function ConsumeFrom(b: Bucket, now: nat, amount: nat, late: seq<nat>, slept: nat): Waiting
    decreases |late|
  {
    var (b1, outcome) := TryTake(b, now, amount);
    match outcome
    case Taken(_) => Done(b1, now, slept)
    case Short(deficit) =>
      if late == [] then StillWaiting(b1, now)
      else
        var woken := now + WaitNanos(b.rate, deficit) + late[0];
        ConsumeFrom(Refilled(b1, woken), woken, amount, late[1..], slept + 1)
  }

  /** An attempt on a bucket that has just been refilled: granted at once, or one sleep and on. */
  lemma Attempt(b: Bucket, now: nat, amount: nat, late: seq<nat>, slept: nat)
    requires Refilled(b, now) == b
    ensures b.tokens >= amount ==>
      ConsumeFrom(b, now, amount, late, slept) == Done(b.(tokens := b.tokens - amount), now, slept)
    ensures b.tokens < amount && late != [] ==>
      var woken := now + WaitNanos(b.rate, amount - b.tokens) + late[0];
      ConsumeFrom(b, now, amount, late, slept)
      == ConsumeFrom(Refilled(b, woken), woken, amount, late[1..], slept + 1)
  {}

  /** One sleep that brings enough tokens ends the loop. */
  lemma GrantedAfterOneSleep(b: Bucket, now: nat, amount: nat, late: seq<nat>, slept: nat)
    requires Refilled(b, now) == b && b.tokens < amount && late != []
    requires var woken := now + WaitNanos(b.rate, amount - b.tokens) + late[0];
      var b' := Refilled(b, woken);
      Refilled(b', woken) == b' && b'.tokens >= amount
    ensures ConsumeFrom(b, now, amount, late, slept).Done?
    ensures ConsumeFrom(b, now, amount, late, slept).sleeps == slept + 1
    ensures ConsumeFrom(b, now, amount, late, slept).at == now + WaitNanos(b.rate, amount - b.tokens) + late[0]
  {
    var woken := now + WaitNanos(b.rate, amount - b.tokens) + late[0];
    Attempt(b, now, amount, late, slept);
    Attempt(Refilled(b, woken), woken, amount, late[1..], slept + 1);
  }

  /** State after a failed attempt, one sleep and the two refills that follow it. */
  lemma AfterOneSleep(b: Bucket, now: nat, amount: nat, late: nat)
    requires Sound(b) && b.lastRefill <= now && b.rate > 0 && amount <= b.capacity
    requires TryTake(b, now, amount).1.Short?
    ensures var (b1, short) := TryTake(b, now, amount);
      var slept := WaitNanos(b.rate, short.deficit) + late;
      var elapsed := now - b1.lastRefill + slept;
      var b2 := Refilled(b1, now + slept);
      && Sound(b2) && b2.rate == b.rate && b2.capacity == b.capacity
      && b2.tokens == Min(b1.tokens + Earned(elapsed, b.rate), b.capacity)
      && b2.lastRefill == (if Earned(elapsed, b.rate) > 0 then now + slept else b1.lastRefill)
      && Refilled(b2, now + slept) == b2
  {
    var (b1, short) := TryTake(b, now, amount);
    RefillIsIdempotent(b1, now + WaitNanos(b.rate, short.deficit) + late);
  }

  lemma EarnedReaches(elapsed: nat, rate: nat, want: nat)
    ensures Earned(elapsed, rate) >= want <==> elapsed * rate >= want * NANOS_PER_SEC
  {
    EarnedBounds(elapsed, rate);
  }

  /**
   * Exactly when one sleep is enough: the time slept, together with the time the failed attempt
   * had not credited, must be worth the deficit.
   */
  lemma OneSleepSuffices(b: Bucket, now: nat, amount: nat, late: nat)
    requires Sound(b) && b.lastRefill <= now && b.rate > 0 && amount <= b.capacity
    requires TryTake(b, now, amount).1.Short?
    ensures var (b1, short) := TryTake(b, now, amount);
      ConsumeFrom(b, now, amount, [late], 0).Done?
      <==> (now - b1.lastRefill + WaitNanos(b.rate, short.deficit) + late) * b.rate
           >= short.deficit * NANOS_PER_SEC
  {
    var (b1, short) := TryTake(b, now, amount);
    var slept := WaitNanos(b.rate, short.deficit) + late;
    AfterOneSleep(b, now, amount, late);
    EarnedReaches(now - b1.lastRefill + slept, b.rate, short.deficit);
    assert [late][1..] == [];
    var b2 := Refilled(b1, now + slept);
    assert ConsumeFrom(b, now, amount, [late], 0) == ConsumeFrom(b2, now + slept, amount, [], 1);
  }

  /** Flooring loses less than one unit of the divisor. */
  lemma FloorLoss(x: nat, d: nat)
    requires d > 0
    ensures x / d * d <= x < (x / d + 1) * d
  {
    assert x == x / d * d + x % d;
  }

  /** A timer that fires one nanosecond late makes one sleep enough, as does an exact division. */
  lemma OneLateSleepSuffices(b: Bucket, now: nat, amount: nat, late: nat)
    requires Sound(b) && b.lastRefill <= now && b.rate > 0 && amount <= b.capacity
    requires TryTake(b, now, amount).1.Short?
    requires late >= 1 || TryTake(b, now, amount).1.deficit * NANOS_PER_SEC % b.rate == 0
    ensures ConsumeFrom(b, now, amount, [late], 0).Done?
  {
    var (b1, short) := TryTake(b, now, amount);
    var need := short.deficit * NANOS_PER_SEC;
    FloorLoss(need, b.rate);
    var least := need / b.rate + (if late >= 1 then 1 else 0);
    assert least * b.rate >= need by {
      if late < 1 { assert need == need / b.rate * b.rate + need % b.rate; }
    }
    var elapsed := now - b1.lastRefill + WaitNanos(b.rate, short.deficit) + late;
    MulMono(least, elapsed, b.rate);
    OneSleepSuffices(b, now, amount, late);
  }

  /** With a timer that fires on time the truncated sleep can fall short: three tokens a second, one token missing. */
  lemma OneSleepCanFallShort()
    ensures var b := Bucket(1, 0, 3, 0);
      && Sound(b) && TryTake(b, 0, 1).1 == Short(1)
      && ConsumeFrom(b, 0, 1, [0], 0).StillWaiting?
  {
    var b := Bucket(1, 0, 3, 0);
    assert TryTake(b, 0, 1) == (b, Short(1));
    assert WaitNanos(3, 1) == 333_333_333;
    OneSleepSuffices(b, 0, 1, 0);
    assert [0][1..] == [];
  }

  /** After a sleep that falls short, what is missing is worth less than a nanosecond plus a token. */
  lemma ShortSleepLeavesLittle(rate: nat, deficit: nat, elapsed: nat)
    requires rate > 0 && deficit > 0
    requires elapsed >= WaitNanos(rate, deficit) && Earned(elapsed, rate) < deficit
    ensures (deficit - Earned(elapsed, rate)) * NANOS_PER_SEC < rate + NANOS_PER_SEC
    ensures rate <= NANOS_PER_SEC ==> deficit - Earned(elapsed, rate) == 1
  {
    var need := deficit * NANOS_PER_SEC;
    var q := need / rate;
    FloorLoss(need, rate);
    OneMore(q, rate);
    MulMono(q, elapsed, rate);
    EarnedBounds(elapsed, rate);
  }

  lemma OneMore(q: nat, rate: nat)
    ensures (q + 1) * rate == q * rate + rate
  {}

  /** At very high rates the one-millisecond minimum alone covers what a short sleep left. */
  lemma HighRateCatchesUp(rate: nat, deficit: nat, elapsed: nat)
    requires rate > NANOS_PER_SEC
    requires deficit * NANOS_PER_SEC < rate + NANOS_PER_SEC
    requires elapsed >= NANOS_PER_MILLI
    ensures Earned(elapsed, rate) >= deficit
  {
    MulMono(NANOS_PER_MILLI, elapsed, rate);
    EarnedReaches(elapsed, rate, deficit);
  }

  /** Two truncated sleeps for one token are worth that token. */
  lemma TwoSleepsBuyOneToken(rate: nat, elapsed: nat)
    requires 0 < rate <= NANOS_PER_SEC
    requires elapsed >= 2 * WaitNanos(rate, 1)
    ensures Earned(elapsed, rate) >= 1
  {
    FloorLoss(NANOS_PER_SEC, rate);
    var q := NANOS_PER_SEC / rate;
    assert q >= 1 by { if q < 1 { MulMono(q + 1, 1, rate); } }
    assert (q + 1) * rate <= 2 * q * rate by { MulMono(q + 1, 2 * q, rate); }
    MulMono(2 * q, elapsed, rate);
    EarnedReaches(elapsed, rate, 1);
  }

  /** How late the first n sleeps end, in all. */
  function Lateness(late: seq<nat>, n: nat): nat
    requires n <= |late|
  {
    if n == 0 then 0 else late[0] + Lateness(late[1..], n - 1)
  }

  /** What a short sleep leaves missing is slept for no longer than a token is. */
  lemma LittleSleep(rate: nat, deficit: nat)
    requires rate > 0 && deficit * NANOS_PER_SEC < rate + NANOS_PER_SEC
    requires rate <= NANOS_PER_SEC ==> deficit == 1
    ensures WaitNanos(rate, deficit) <= WaitNanos(rate, 1)
  {
    if rate > NANOS_PER_SEC {
      var q := deficit * NANOS_PER_SEC / rate;
      FloorLoss(deficit * NANOS_PER_SEC, rate);
      if q >= 2 { MulMono(2, q, rate); }
    }
  }

  /**
   * Progress with the exact-floor sleep: for every positive rate, every amount within capacity and
   * every timer, at most three sleeps are needed.
   */
  lemma ThreeSleepsSuffice(b: Bucket, now: nat, amount: nat, late: seq<nat>)
    requires Sound(b) && b.lastRefill <= now && b.rate > 0 && amount <= b.capacity
    requires |late| >= 3
    ensures ConsumeFrom(b, now, amount, late, 0).Done?
    ensures ConsumeFrom(b, now, amount, late, 0).sleeps <= 3
    ensures var r := ConsumeFrom(b, now, amount, late, 0);
      match TryTake(b, now, amount).1
      case Taken(_) => r.at == now
      case Short(deficit) =>
        r.at <= now + WaitNanos(b.rate, deficit) + 2 * WaitNanos(b.rate, 1) + Lateness(late, r.sleeps)
  {
    hide Earned, ConsumeFrom, WaitNanos;
    var (b1, o1) := TryTake(b, now, amount);
    FirstAttempt(b, now, amount, late);
    if o1.Short? {
      var t2 := now + WaitNanos(b.rate, o1.deficit) + late[0];
      var b2 := Refilled(b1, t2);
      AfterOneSleep(b, now, amount, late[0]);
      Attempt(b2, t2, amount, late[1..], 1);
      if b2.tokens < amount {
        ShortSleepLeavesLittle(b.rate, o1.deficit, t2 - b1.lastRefill);
        SecondSleep(b2, t2, amount, late[1..], t2 - b1.lastRefill);
      }
    }
  }

  lemma QuotientGrows(a: nat, b: nat, d: nat)
    requires a <= b && d > 0
    ensures a / d <= b / d
  {
    FloorLoss(a, d);
    FloorLoss(b, d);
    if a / d > b / d { MulMono(b / d + 1, a / d, d); }
  }

  /**
   * When `consume` returns: at once if the tokens are there; otherwise after at most the time its
   * deficit is worth, twice the time a token is worth, each at least a millisecond, and the lateness
   * of the sleeps it took.
   */
  lemma ConsumeReturnsInTime(b: Bucket, now: nat, amount: nat, late: seq<nat>)
    requires Sound(b) && b.lastRefill <= now && b.rate > 0 && amount <= b.capacity
    requires |late| >= 3
    ensures var r := ConsumeFrom(b, now, amount, late, 0);
      && r.Done? && r.sleeps <= 3
      && (b.tokens >= amount ==> r.at == now)
      && (b.tokens < amount ==>
            r.at <= now + TimeFor(b.rate, amount - b.tokens) + 2 * TimeFor(b.rate, 1) + Lateness(late, r.sleeps))
  {
    hide ConsumeFrom, Lateness, WaitNanos, TimeFor;
    ThreeSleepsSuffice(b, now, amount, late);
    var (b1, o1) := TryTake(b, now, amount);
    if o1.Short? {
      SleepIsTimeFor(b.rate, o1.deficit, amount - b.tokens);
      SleepIsTimeFor(b.rate, 1, 1);
    }
  }

  /** The time in which so many tokens flow in, to the nanosecond, but at least a millisecond. */
  function TimeFor(rate: nat, tokens: nat): nat
    requires rate > 0
  {
    Max(tokens * NANOS_PER_SEC / rate, NANOS_PER_MILLI)
  }

  lemma SleepIsTimeFor(rate: nat, deficit: nat, tokens: nat)
    requires rate > 0 && deficit <= tokens
    ensures WaitNanos(rate, deficit) <= TimeFor(rate, tokens)
  {
    MulMono(deficit, tokens, NANOS_PER_SEC);
    QuotientGrows(deficit * NANOS_PER_SEC, tokens * NANOS_PER_SEC, rate);
  }

  /** Granted or not, and however large the amount: no sleep takes longer than the whole amount is worth. */
  lemma {:induction false} EverySleepIsBounded(b: Bucket, now: nat, amount: nat, late: seq<nat>, slept: nat)
    requires b.rate > 0
    ensures ConsumeFrom(b, now, amount, late, slept).at
         <= now + |late| * TimeFor(b.rate, amount) + Lateness(late, |late|)
    decreases |late|
  {
    var (b1, o1) := TryTake(b, now, amount);
    var longest := TimeFor(b.rate, amount);
    if o1.Short? && late != [] {
      var woken := now + WaitNanos(b.rate, o1.deficit) + late[0];
      SleepIsTimeFor(b.rate, o1.deficit, amount);
      hide WaitNanos, TimeFor;
      EverySleepIsBounded(Refilled(b1, woken), woken, amount, late[1..], slept + 1);
      assert |late| * longest == longest + (|late| - 1) * longest;
    } else {
      assert |late| * longest >= 0;
    }
  }

  /** Three are needed: three tokens a second, two missing, and timers that fire on time. */
  lemma ThreeSleepsAreNeeded()
    ensures Sound(Bucket(2, 0, 3, 0))
    ensures ConsumeFrom(Bucket(2, 0, 3, 0), 0, 2, [0, 0], 0).StillWaiting?
    ensures ConsumeFrom(Bucket(2, 0, 3, 0), 0, 2, [0, 0, 0], 0).Done?
  {
    hide ConsumeFrom, Refilled, WaitNanos;
    var b, b1 := Bucket(2, 0, 3, 0), Bucket(2, 1, 3, 666_666_666);
    DoneInThree(b, 2);
    TwoShortSleeps();
    assert [0, 0][1..] == [0] && [0][1..] == [];
    Attempt(b, 0, 2, [0, 0], 0);
    Attempt(b1, 666_666_666, 2, [0], 1);
    StillShort(b1, 999_999_999, 2);
  }

  lemma DoneInThree(b: Bucket, amount: nat)
    requires Sound(b) && b.lastRefill == 0 && b.rate > 0 && amount <= b.capacity
    ensures ConsumeFrom(b, 0, amount, [0, 0, 0], 0).Done?
  {
    hide ConsumeFrom, WaitNanos, Lateness;
    ThreeSleepsSuffice(b, 0, amount, [0, 0, 0]);
  }

  lemma TwoShortSleeps()
    ensures WaitNanos(3, 2) == 666_666_666 && WaitNanos(3, 1) == 333_333_333
    ensures Refilled(Bucket(2, 0, 3, 0), 0) == Bucket(2, 0, 3, 0)
    ensures Refilled(Bucket(2, 0, 3, 0), 666_666_666) == Bucket(2, 1, 3, 666_666_666)
    ensures Refilled(Bucket(2, 1, 3, 666_666_666), 666_666_666) == Bucket(2, 1, 3, 666_666_666)
    ensures Refilled(Bucket(2, 1, 3, 666_666_666), 999_999_999) == Bucket(2, 1, 3, 666_666_666)
  {}

  lemma StillShort(b: Bucket, now: nat, amount: nat)
    requires Refilled(b, now) == b && b.tokens < amount
    ensures ConsumeFrom(b, now, amount, [], 2).StillWaiting?
  {}

  lemma FirstAttempt(b: Bucket, now: nat, amount: nat, late: seq<nat>)
    requires late != []
    ensures var (b1, o1) := TryTake(b, now, amount);
      match o1
      case Taken(_) => ConsumeFrom(b, now, amount, late, 0) == Done(b1, now, 0)
      case Short(deficit) =>
        var woken := now + WaitNanos(b.rate, deficit) + late[0];
        ConsumeFrom(b, now, amount, late, 0) == ConsumeFrom(Refilled(b1, woken), woken, amount, late[1..], 1)
  {}

  /** The second attempt has failed at t2, with the little deficit that a short first sleep leaves. */
  lemma SecondSleep(b2: Bucket, t2: nat, amount: nat, late: seq<nat>, elapsed: nat)
    requires Sound(b2) && b2.lastRefill <= t2 && b2.rate > 0 && amount <= b2.capacity
    requires Refilled(b2, t2) == b2 && b2.tokens < amount && |late| >= 2
    requires (amount - b2.tokens) * NANOS_PER_SEC < b2.rate + NANOS_PER_SEC
    requires b2.rate <= NANOS_PER_SEC ==> amount - b2.tokens == 1
    requires b2.lastRefill == t2 || t2 - b2.lastRefill == elapsed >= WaitNanos(b2.rate, amount - b2.tokens)
    ensures ConsumeFrom(b2, t2, amount, late, 1).Done?
    ensures 2 <= ConsumeFrom(b2, t2, amount, late, 1).sleeps <= 3
    ensures var r := ConsumeFrom(b2, t2, amount, late, 1);
      r.at <= t2 + 2 * WaitNanos(b2.rate, 1) + Lateness(late, r.sleeps - 1)
  {
    LittleSleep(b2.rate, amount - b2.tokens);
    SecondLateness(late);
    var t3 := t2 + WaitNanos(b2.rate, amount - b2.tokens) + late[0];
    var b3 := Refilled(b2, t3);
    SecondSleepState(b2, t2, amount, late[0]);
    if b3.tokens >= amount {
      GrantedAfterOneSleep(b2, t2, amount, late, 1);
    } else {
      ThirdSleep(b3, t3, amount, late[1], t2);
      GrantedAfterOneSleep(b3, t3, amount, late[1..], 2);
      Attempt(b2, t2, amount, late, 1);
    }
  }

  lemma SecondLateness(late: seq<nat>)
    requires |late| >= 2
    ensures Lateness(late, 1) == late[0] && Lateness(late, 2) == late[0] + late[1]
  {
    assert Lateness(late[1..], 1) == late[1] + Lateness(late[1..][1..], 0);
  }

  /** The second sleep pays the rest, or leaves one token missing with the whole sleep uncredited. */
  lemma SecondSleepState(b2: Bucket, t2: nat, amount: nat, late: nat)
    requires Sound(b2) && b2.lastRefill <= t2 && b2.rate > 0 && amount <= b2.capacity
    requires Refilled(b2, t2) == b2 && b2.tokens < amount
    requires (amount - b2.tokens) * NANOS_PER_SEC < b2.rate + NANOS_PER_SEC
    requires b2.rate <= NANOS_PER_SEC ==> amount - b2.tokens == 1
    requires b2.lastRefill == t2 || t2 - b2.lastRefill >= WaitNanos(b2.rate, amount - b2.tokens)
    ensures var t3 := t2 + WaitNanos(b2.rate, amount - b2.tokens) + late;
      var b3 := Refilled(b2, t3);
      && Refilled(b3, t3) == b3
      && (b3.tokens >= amount
          || (b3 == b2 && b2.lastRefill == t2 && b2.rate <= NANOS_PER_SEC && b2.tokens + 1 == amount))
  {
    var t3 := t2 + WaitNanos(b2.rate, amount - b2.tokens) + late;
    AfterOneSleep(b2, t2, amount, late);
    if b2.rate > NANOS_PER_SEC {
      HighRateCatchesUp(b2.rate, amount - b2.tokens, t3 - b2.lastRefill);
    } else if b2.lastRefill != t2 {
      TwoSleepsBuyOneToken(b2.rate, t3 - b2.lastRefill);
    }
  }

  /** One token is still missing and the second sleep has not been credited. */
  lemma ThirdSleep(b3: Bucket, t3: nat, amount: nat, late: nat, t2: nat)
    requires Sound(b3) && 0 < b3.rate <= NANOS_PER_SEC && amount <= b3.capacity
    requires Refilled(b3, t3) == b3 && b3.tokens + 1 == amount
    requires b3.lastRefill == t2 && t3 >= t2 + WaitNanos(b3.rate, 1)
    ensures var t4 := t3 + WaitNanos(b3.rate, 1) + late;
      var b4 := Refilled(b3, t4);
      b4.tokens >= amount && Refilled(b4, t4) == b4
  {
    var t4 := t3 + WaitNanos(b3.rate, 1) + late;
    AfterOneSleep(b3, t3, amount, late);
    TwoSleepsBuyOneToken(b3.rate, t4 - b3.lastRefill);
  }

  /** An amount above capacity is never granted, however long the caller sleeps; nor is anything granted from a dry bucket with rate zero. */
  lemma {:induction false} NeverGranted(b: Bucket, now: nat, amount: nat, late: seq<nat>, slept: nat)
    requires Sound(b)
    requires amount > b.capacity || (b.rate == 0 && amount > b.tokens)
    ensures ConsumeFrom(b, now, amount, late, slept).StillWaiting?
    decreases |late|
  {
    if b.rate == 0 { assert Refilled(b, now) == b; }
    var (b1, short) := TryTake(b, now, amount);
    if late != [] {
      var woken := now + WaitNanos(b.rate, short.deficit) + late[0];
      if b.rate == 0 { assert Refilled(b1, woken) == b1; }
      NeverGranted(Refilled(b1, woken), woken, amount, late[1..], slept + 1);
    }
  }
}
