/** Fair-share rebalancing: how the global bandwidth is divided among the active users. */
module FairShare {
  import opened Basics
  import opened TokenBucket

  datatype Config = Config(globalRate: nat, guaranteed: nat, max: nat, burst: nat)

  /** The rates the arithmetic of the original needs: it subtracts one from the other. */
  predicate WellFormed(c: Config) { c.guaranteed <= c.max }

  function Sum(s: seq<nat>): nat
  {
    if s == [] then 0 else Sum(s[..|s| - 1]) + s[|s| - 1]
  }

  /** What n users are guaranteed together. */
  function Guarantees(c: Config, n: nat): nat { n * c.guaranteed }

  /** Bandwidth left once each of n users has its guaranteed rate. */
  function Remaining(c: Config, n: nat): nat
  {
    if c.globalRate >= Guarantees(c, n) then c.globalRate - Guarantees(c, n) else 0
  }

  /** The oversubscribed case: a part of the remainder proportional to the demand. */
  function Proportion(demand: nat, remaining: nat, total: nat): nat
    requires total > 0
  {
    demand * remaining / total
  }

  /** A user's part of the remainder before the cap. */
  function Extra(remaining: nat, total: nat, n: nat, demand: nat): nat
    requires n > 0
  {
    if remaining == 0 then 0
    else if total == 0 then remaining / n
    else if total > remaining then Proportion(demand, remaining, total)
    else demand
  }

  function Part(c: Config, remaining: nat, total: nat, n: nat, demand: nat): nat
    requires WellFormed(c) && n > 0
  {
    c.guaranteed + Min(Extra(remaining, total, n, demand), c.max - c.guaranteed)
  }

  function Share(c: Config, demands: seq<nat>, i: nat): nat
    requires WellFormed(c) && i < |demands|
  {
    Part(c, Remaining(c, |demands|), Sum(demands), |demands|, demands[i])
  }

  function Shares(c: Config, demands: seq<nat>): seq<nat>
    requires WellFormed(c)
  {
    seq(|demands|, i requires 0 <= i < |demands| => Share(c, demands, i))
  }

  lemma SumAppends(s: seq<nat>, x: nat)
    ensures Sum(s + [x]) == Sum(s) + x
  {
    assert (s + [x])[..|s|] == s;
  }

  lemma GuaranteesStep(c: Config, n: nat)
    ensures Guarantees(c, n + 1) == Guarantees(c, n) + c.guaranteed
    ensures Guarantees(c, 0) == 0
  {}

  /** Phase 1: the guaranteed rate for everybody, and the running remainder. */
  method AllocateGuarantees(c: Config, n: nat) returns (allocations: seq<nat>, remaining: nat)
    ensures |allocations| == n && remaining == Remaining(c, n)
    ensures forall j :: 0 <= j < n ==> allocations[j] == c.guaranteed
  {
    allocations, remaining := [], c.globalRate;
    GuaranteesStep(c, 0);
    for i := 0 to n
      invariant |allocations| == i && remaining == Remaining(c, i)
      invariant forall j :: 0 <= j < i ==> allocations[j] == c.guaranteed
    {
      GuaranteesStep(c, i);
      allocations := allocations + [c.guaranteed];
      remaining := if remaining >= c.guaranteed then remaining - c.guaranteed else 0;
    }
  }

  method TotalDemand(demands: seq<nat>) returns (total: nat)
    ensures total == Sum(demands)
  {
    total := 0;
    for i := 0 to |demands|
      invariant total == Sum(demands[..i])
    {
      SumAppends(demands[..i], demands[i]);
      assert demands[..i] + [demands[i]] == demands[..i + 1];
      total := total + demands[i];
    }
    assert demands[..|demands|] == demands;
  }

  /** Phase 1 hands out the guarantees; phase 2 overwrites each entry with its capped part of the remainder. */
  method CalculateFairShares(c: Config, demands: seq<nat>) returns (allocations: seq<nat>)
    requires WellFormed(c)
    ensures allocations == Shares(c, demands)
  {
    hide Proportion, Sum, Guarantees;
    var remaining: nat;
    allocations, remaining := AllocateGuarantees(c, |demands|);
    if remaining == 0 || demands == [] {
      return;
    }
    var total := TotalDemand(demands);
    if total > 0 {
      for i := 0 to |demands|
        invariant |allocations| == |demands|
        invariant forall j :: 0 <= j < i ==> allocations[j] == Part(c, remaining, total, |demands|, demands[j])
      {
        var share := if total > remaining then Proportion(demands[i], remaining, total) else demands[i];
        allocations := allocations[i := c.guaranteed + Min(share, c.max - c.guaranteed)];
      }
    } else {
      var equalShare := remaining / |demands|;
      for i := 0 to |demands|
        invariant |allocations| == |demands|
        invariant forall j :: 0 <= j < i ==> allocations[j] == Part(c, remaining, total, |demands|, demands[j])
      {
        allocations := allocations[i := c.guaranteed + Min(equalShare, c.max - c.guaranteed)];
      }
    }
  }

  // ----- what the division guarantees -----

  /** The largest number of units, up to the cap, for which `cost` each stays within the budget. */
  ghost predicate IsLargest(units: nat, cap: nat, cost: nat, budget: nat)
  {
    units <= cap && units * cost <= budget && (units == cap || budget < (units + 1) * cost)
  }

  lemma QuotientIsLargest(cap: nat, cost: nat, budget: nat)
    requires cost > 0
    ensures IsLargest(Min(budget / cost, cap), cap, cost, budget)
  {
    hide IsLargest;
    var q := budget / cost;
    FloorLoss(budget, cost);
    CappedIsLargest(q, cap, cost, budget);
  }

  lemma CappedIsLargest(q: nat, cap: nat, cost: nat, budget: nat)
    requires q * cost <= budget < (q + 1) * cost
    ensures IsLargest(Min(q, cap), cap, cost, budget)
  {
    if cap < q { MulMono(cap, q, cost); }
  }

  /**
   * What a share is: the guaranteed rate and, of the remainder, the most that the user's part of it
   * allows up to the maximal rate; so it is the maximal rate as soon as that part covers it.
   */
  lemma ShareIsTheLargestPart(c: Config, demands: seq<nat>, i: nat)
    requires WellFormed(c) && i < |demands|
    ensures var remaining, total, n := Remaining(c, |demands|), Sum(demands), |demands|;
      var room := c.max - c.guaranteed;
      && Share(c, demands, i) >= c.guaranteed
      && var extra := Share(c, demands, i) - c.guaranteed;
      if remaining == 0 then extra == 0
      else if total == 0 then IsLargest(extra, room, n, remaining)
      else if total > remaining then IsLargest(extra, room, total, demands[i] * remaining)
      else IsLargest(extra, room, 1, demands[i])
  {
    hide Sum, Remaining, IsLargest;
    var remaining, total, n := Remaining(c, |demands|), Sum(demands), |demands|;
    var room := c.max - c.guaranteed;
    if remaining == 0 {
    } else if total == 0 {
      QuotientIsLargest(room, n, remaining);
    } else if total > remaining {
      QuotientIsLargest(room, total, demands[i] * remaining);
    } else {
      CappedIsLargest(demands[i], room, 1, demands[i]);
    }
  }

  lemma ShareInRange(c: Config, demands: seq<nat>, i: nat)
    requires WellFormed(c) && i < |demands|
    ensures c.guaranteed <= Share(c, demands, i) <= c.max
  {}

  /** A larger demand never gets a smaller share. */
  lemma ShareIsMonotone(c: Config, demands: seq<nat>, i: nat, j: nat)
    requires WellFormed(c) && i < |demands| && j < |demands| && demands[i] <= demands[j]
    ensures Share(c, demands, i) <= Share(c, demands, j)
  {
    var remaining, total := Remaining(c, |demands|), Sum(demands);
    if remaining > 0 && total > remaining {
      MulMono(demands[i], demands[j], remaining);
      QuotientGrows(demands[i] * remaining, demands[j] * remaining, total);
    }
  }

  /** The uncapped parts of the remainder, added up. */
  function ExtraSum(demands: seq<nat>, remaining: nat, total: nat, n: nat): nat
    requires n > 0
  {
    if demands == [] then 0
    else ExtraSum(demands[..|demands| - 1], remaining, total, n)
         + Extra(remaining, total, n, demands[|demands| - 1])
  }

  lemma FloorStep(extras: nat, sum: nat, demand: nat, remaining: nat, total: nat, count: nat)
    requires total > 0
    requires extras * total <= sum * remaining <= extras * total + count * total
    ensures var q := Proportion(demand, remaining, total);
      && (extras + q) * total <= (sum + demand) * remaining
      && (sum + demand) * remaining < (extras + q) * total + (count + 1) * total
  {
    var q := Proportion(demand, remaining, total);
    FloorLoss(demand * remaining, total);
    assert (sum + demand) * remaining == sum * remaining + demand * remaining;
    assert (extras + q) * total == extras * total + q * total;
    assert (q + 1) * total == q * total + total;
    assert (count + 1) * total == count * total + total;
  }

  /** Proportional parts, floored one by one, lose less than one unit each. */
  lemma {:induction false} ProportionalSum(demands: seq<nat>, remaining: nat, total: nat, n: nat)
    requires n > 0 && total > remaining > 0
    ensures var extras := ExtraSum(demands, remaining, total, n);
      && extras * total <= Sum(demands) * remaining <= extras * total + |demands| * total
      && (demands != [] ==> Sum(demands) * remaining < extras * total + |demands| * total)
    decreases |demands|
  {
    if demands != [] {
      var init, last := demands[..|demands| - 1], demands[|demands| - 1];
      ProportionalSum(init, remaining, total, n);
      FloorStep(ExtraSum(init, remaining, total, n), Sum(init), last, remaining, total, |init|);
    }
  }

  lemma {:induction false} DemandSum(demands: seq<nat>, remaining: nat, total: nat, n: nat)
    requires n > 0 && 0 < total <= remaining
    ensures ExtraSum(demands, remaining, total, n) == Sum(demands)
    decreases |demands|
  {
    if demands != [] { DemandSum(demands[..|demands| - 1], remaining, total, n); }
  }

  lemma {:induction false} EqualSum(demands: seq<nat>, remaining: nat, n: nat)
    requires n > 0
    ensures ExtraSum(demands, remaining, 0, n) == |demands| * (if remaining == 0 then 0 else remaining / n)
    decreases |demands|
  {
    if demands != [] {
      EqualSum(demands[..|demands| - 1], remaining, n);
      var q := if remaining == 0 then 0 else remaining / n;
      assert |demands| * q == (|demands| - 1) * q + q;
    }
  }

  lemma CancelFactor(a: nat, b: nat, f: nat)
    requires f > 0 && a * f <= b * f
    ensures a <= b
  {
    if a > b { MulMono(b + 1, a, f); }
  }

  lemma CancelFactorStrictly(a: nat, b: nat, f: nat)
    requires f > 0 && a * f < b * f
    ensures a < b
  {
    if a >= b { MulMono(b, a, f); }
  }

  /** Before the cap, the parts fit in the remainder. */
  lemma ExtrasFit(demands: seq<nat>, remaining: nat)
    requires demands != []
    ensures ExtraSum(demands, remaining, Sum(demands), |demands|) <= remaining
  {
    var total, n := Sum(demands), |demands|;
    if remaining == 0 {
      NoExtras(demands, total, n);
    } else if total == 0 {
      EqualSum(demands, remaining, n);
      FloorLoss(remaining, n);
    } else if total > remaining {
      ProportionalSum(demands, remaining, total, n);
      CancelFactor(ExtraSum(demands, remaining, total, n), remaining, total);
    } else {
      DemandSum(demands, remaining, total, n);
    }
  }

  lemma {:induction false} NoExtras(demands: seq<nat>, total: nat, n: nat)
    requires n > 0
    ensures ExtraSum(demands, 0, total, n) == 0
    decreases |demands|
  {
    if demands != [] { NoExtras(demands[..|demands| - 1], total, n); }
  }

  lemma ShareAppends(c: Config, demands: seq<nat>, k: nat)
    requires WellFormed(c) && k < |demands|
    ensures Sum(Shares(c, demands)[..k + 1]) == Sum(Shares(c, demands)[..k]) + Share(c, demands, k)
  {
    var shares := Shares(c, demands);
    assert shares[..k + 1] == shares[..k] + [shares[k]];
    SumAppends(shares[..k], shares[k]);
  }

  lemma ExtraAppends(demands: seq<nat>, k: nat, remaining: nat, total: nat, n: nat)
    requires n > 0 && k < |demands|
    ensures ExtraSum(demands[..k + 1], remaining, total, n)
         == ExtraSum(demands[..k], remaining, total, n) + Extra(remaining, total, n, demands[k])
  {
    assert demands[..k + 1][..k] == demands[..k];
  }

  predicate Uncapped(c: Config, demands: seq<nat>, i: nat)
    requires i < |demands|
  {
    c.guaranteed + Extra(Remaining(c, |demands|), Sum(demands), |demands|, demands[i]) <= c.max
  }

  /** The first k shares lie between the guarantees and the guarantees plus uncapped parts. */
  lemma {:induction false} PrefixOfShares(c: Config, demands: seq<nat>, k: nat)
    requires WellFormed(c) && k <= |demands| && demands != []
    ensures var extras := ExtraSum(demands[..k], Remaining(c, |demands|), Sum(demands), |demands|);
      Guarantees(c, k) <= Sum(Shares(c, demands)[..k]) <= Guarantees(c, k) + extras
    decreases k
  {
    GuaranteesStep(c, 0);
    if k > 0 {
      PrefixOfShares(c, demands, k - 1);
      ShareAppends(c, demands, k - 1);
      ExtraAppends(demands, k - 1, Remaining(c, |demands|), Sum(demands), |demands|);
      GuaranteesStep(c, k - 1);
    }
  }

  lemma {:induction false} UncappedPrefix(c: Config, demands: seq<nat>, k: nat)
    requires WellFormed(c) && k <= |demands| && demands != []
    requires forall i :: 0 <= i < k ==> Uncapped(c, demands, i)
    ensures Sum(Shares(c, demands)[..k])
         == Guarantees(c, k) + ExtraSum(demands[..k], Remaining(c, |demands|), Sum(demands), |demands|)
    decreases k
  {
    GuaranteesStep(c, 0);
    if k > 0 {
      UncappedPrefix(c, demands, k - 1);
      ShareAppends(c, demands, k - 1);
      ExtraAppends(demands, k - 1, Remaining(c, |demands|), Sum(demands), |demands|);
      GuaranteesStep(c, k - 1);
      assert Uncapped(c, demands, k - 1);
    }
  }

  /**
   * The shares never promise more than there is: they add up to at most the global bandwidth when
   * the guarantees fit in it, and to exactly the guarantees when they do not.
   */
  lemma SharesFit(c: Config, demands: seq<nat>)
    requires WellFormed(c)
    ensures Guarantees(c, |demands|) <= c.globalRate ==> Sum(Shares(c, demands)) <= c.globalRate
    ensures Guarantees(c, |demands|) >= c.globalRate ==> Sum(Shares(c, demands)) == Guarantees(c, |demands|)
  {
    var shares := Shares(c, demands);
    if demands == [] {
      assert shares == [];
      GuaranteesStep(c, 0);
    } else {
      PrefixOfShares(c, demands, |demands|);
      assert shares[..|demands|] == shares && demands[..|demands|] == demands;
      ExtrasFit(demands, Remaining(c, |demands|));
    }
  }

  lemma Distribute(a: nat, b: nat, c: nat)
    ensures (a + b) * c == a * c + b * c
  {}

  /** Oversubscribed, the parts use up all but fewer than n units of the remainder. */
  lemma ProportionalPartsUseTheRemainder(demands: seq<nat>, remaining: nat)
    requires demands != [] && Sum(demands) > remaining > 0
    ensures remaining < ExtraSum(demands, remaining, Sum(demands), |demands|) + |demands|
  {
    hide Sum, ExtraSum;
    var total, n := Sum(demands), |demands|;
    ProportionalSum(demands, remaining, total, n);
    var extras := ExtraSum(demands, remaining, total, n);
    Distribute(extras, n, total);
    CancelFactorStrictly(remaining, extras + n, total);
  }

  /** Oversubscribed and uncapped, fewer than n units of the bandwidth are left unassigned. */
  lemma OversubscribedWastesLittle(c: Config, demands: seq<nat>)
    requires WellFormed(c) && demands != []
    requires Sum(demands) > Remaining(c, |demands|) > 0
    requires forall i :: 0 <= i < |demands| ==> Uncapped(c, demands, i)
    ensures c.globalRate - |demands| < Sum(Shares(c, demands)) <= c.globalRate
  {
    var shares := Shares(c, demands);
    UncappedPrefix(c, demands, |demands|);
    assert shares[..|demands|] == shares && demands[..|demands|] == demands;
    ProportionalPartsUseTheRemainder(demands, Remaining(c, |demands|));
    SharesFit(c, demands);
  }
}
