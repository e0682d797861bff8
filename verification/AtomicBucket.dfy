/** The bucket as an object with its compare-and-exchange loops, run by one caller at a time. */
module AtomicBucket {
  import opened Basics
  import opened TokenBucket

  class Cell {
    const capacity: nat
    var tokens: nat
    var refillRate: nat
    var lastRefill: nat

    ghost predicate Valid()
      reads this
    {
      tokens <= capacity <= MAX_U64
    }

    ghost function View(): Bucket
      reads this
    {
      Bucket(capacity, tokens, refillRate, lastRefill)
    }

    constructor (capacity: nat, refillRate: nat, now: nat)
      requires capacity <= MAX_U64
      ensures Valid() && View() == Bucket(capacity, capacity, refillRate, now)
    {
      this.capacity := capacity;
      this.tokens := capacity;
      this.refillRate := refillRate;
      this.lastRefill := now;
    }

    method CompareExchange(expected: nat, desired: nat) returns (ok: bool)
      modifies `tokens
      ensures ok == (old(tokens) == expected)
      ensures tokens == if ok then desired else old(tokens)
    {
      ok := tokens == expected;
      if ok { tokens := desired; }
    }

    method AddTokens(amount: nat)
      requires Valid()
      modifies `tokens
      ensures Valid() && tokens == Min(old(tokens) + amount, capacity)
    {
      var done := false;
      while !done
        invariant !done ==> tokens == old(tokens)
        invariant done ==> tokens == Min(old(tokens) + amount, capacity)
        decreases !done
      {
        var current := tokens;
        done := CompareExchange(current, Min(SatAdd(current, amount), capacity));
      }
    }

    method RefillSync(now: nat)
      requires Valid()
      modifies `tokens, `lastRefill
      ensures Valid() && View() == Refilled(old(View()), now)
    {
      var elapsed := if now >= lastRefill then now - lastRefill else 0;
      if elapsed >= NANOS_PER_MILLI {
        var add := elapsed * refillRate / NANOS_PER_SEC;
        if add > 0 {
          AddTokens(add);
          lastRefill := now;
        }
      }
    }

    method TryConsume(now: nat, amount: nat) returns (outcome: Outcome)
      requires Valid()
      modifies `tokens, `lastRefill
      ensures Valid() && (View(), outcome) == TryTake(old(View()), now, amount)
    {
      RefillSync(now);
      ghost var refilled := View();
      outcome := Short(0);
      var done := false;
      while !done
        invariant lastRefill == refilled.lastRefill
        invariant !done ==> tokens == refilled.tokens
        invariant done ==> Valid() && (View(), outcome) == TryTake(old(View()), now, amount)
        decreases !done
      {
        var current := tokens;
        if current >= amount {
          done := CompareExchange(current, current - amount);
          outcome := Taken(amount);
        } else {
          outcome := Short(amount - current);
          done := true;
        }
      }
    }

    /** Follows the loop through the sleeps that `late` describes; see ConsumeFrom. */
    method Consume(start: nat, amount: nat, late: seq<nat>) returns (result: Waiting)
      requires Valid()
      modifies `tokens, `lastRefill
      ensures Valid() && result == ConsumeFrom(old(View()), start, amount, late, 0)
      ensures result.Done? ==> View() == result.bucket
    {
      var now: nat, sleeps: nat := start, 0;
      while true
        invariant Valid() && sleeps <= |late|
        invariant ConsumeFrom(View(), now, amount, late[sleeps..], sleeps)
               == ConsumeFrom(old(View()), start, amount, late, 0)
        decreases |late| - sleeps
      {
        var outcome := TryConsume(now, amount);
        if outcome.Taken? {
          return Done(Bucket(capacity, tokens, refillRate, lastRefill), now, sleeps);
        }
        if sleeps == |late| {
          return StillWaiting(Bucket(capacity, tokens, refillRate, lastRefill), now);
        }
        now := now + WaitNanos(refillRate, outcome.deficit) + late[sleeps];
        RefillSync(now);
        assert late[sleeps..][1..] == late[sleeps + 1..];
        sleeps := sleeps + 1;
      }
    }

    method SetRefillRate(rate: nat)
      requires Valid()
      modifies `refillRate
      ensures Valid() && View() == old(View()).(rate := rate)
    {
      refillRate := rate;
    }
  }
}
