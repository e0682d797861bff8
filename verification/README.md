# RustSocks: a verified model

RustSocks is a SOCKS proxy server. This project models the parts of it whose correctness depends on
unbounded runs, on interleavings, or on a compiled form agreeing with a simple one, and proves what
those parts promise. The language is Dafny 4.11; `dafny verify dfyconfig.toml` verifies the whole project.

## How the model is built

**Concurrency.** Where tasks interleave, the state is a value, every memory access or suspension point
is one step, and a deterministic `Next` applies an event. An event that cannot happen in a state changes
nothing, so a theorem about every list of events is a theorem about every interleaving. Time is a natural
number of nanoseconds that only moves forward.

**Objects and loops.** What the source does by changing fields and variables is also written that way:
classes with fields, methods with loops, each proved equal to a function on values about which the
properties are then proved.

| files | what they model |
|---|---|
| `TokenBucket`, `AtomicBucket`, `BucketMachine` | the token bucket as a value, as an object with its retry loops, and as threads that load, compare-and-exchange and try a refill lock |
| `FairShare`, `Htb` | the division of the global bandwidth; the two-level allocator, built from `BucketMachine` buckets and any number of transfers |
| `Admission` | connection limits, counters and the active-user gauge under check-then-increment handlers |
| `Pool`, `PoolRuns`, `ConnectionPool` | the upstream pool as values, over whole runs, and as an object |
| `Wildcard`, `PortTexts`, `Acl`, `AclEngine` | the wildcard compiler, port expressions, the declarative policy, and the engine that compiles, collects, sorts and takes the first match |
| `Traffic`, `Relay` | saturating traffic counters; two relay directions that share a cancellation token |
| `Sessions`, `Updates`, `SessionRaces` | the session manager as an object; what becomes of numbered traffic updates; the same tables under concurrent openers, closers and updaters |
| `Proxy` | one connection in its surroundings: `Relay` over the allocator of `Htb` and the manager of `SessionRaces` |
| `Codec`, `Utf8` | UDP datagrams (RFC 1928, section 7) and GSS-API messages (RFC 1961, sections 3 and 4); which bytes are text |
| `Basics`, `Tally` | shared definitions; sums over maps |

## What turned out differently from what one might expect

- **One sleep in `consume` is not always enough.** The computed sleep is truncated to whole nanoseconds,
  so a timer that fires exactly on time can wake up a fraction too early (`OneSleepCanFallShort`: rate 3,
  one token missing). `OneSleepSuffices` says exactly when one sleep is enough; a nanosecond of lateness
  always is (`OneLateSleepSuffices`); three sleeps always are (`ThreeSleepsSuffice`), and can be needed
  (`ThreeSleepsAreNeeded`).
- **A bucket can exceed burst plus rate times window.** A skipped refill carries time into a later window;
  `WindowBound` has the exact allowance and `WindowSlackIsNeeded` shows it is used.
- **Limits can be overrun by concurrent handlers.** `LimitsHold` gives limit - 1 + K for K handlers between
  check and increment, and `RaceReachesTheBound` reaches it for all limits and every K.
- **Wildcards written with an upper-case letter match nothing**, so a blocking one blocks nothing. The host
  is lowered and the pattern is not (`UpperCaseRulesAreDead`, `UpperCaseRuleMayGo`).
- **A star that shares its label with other characters is misread**: it is copied into the regular
  expression, where it repeats the character before it. `prod-*.company.com`, which the example
  configuration in src/acl/loader.rs:87 allows, does not match `prod-1.company.com`
  (`PartialStarsCoverNothingNew`); every such pattern is wrong about some host (`PartialStarsAreMisread`).
- A leading empty label, or a label that ends in a caret, loses the following separator. Of all patterns,
  exactly the faithful ones are compiled to what they mean (`CodeIsRightExactlyOnFaithfulPatterns`), and
  policies decide as meant if the patterns of the rules that apply are faithful.
- **A port range written backwards is accepted and matches nothing** (`BackwardRangesAreEmpty`), so a rule
  with only such a range never applies.
- **Groups that differ only in case can make the two evaluations disagree**, although the configuration
  validates. `LookupsLeadToTheSame` is the exact condition: under it they agree for all rules
  (`EvaluationsAgree`), without it some rules for the same users and groups tell them apart
  (`EvaluationsDisagree`).
- **The `Reuse` hint of the relay is unreachable** (`EveryHintIsRefresh`), and a relay task that fails
  does not cancel the token, so the other direction goes on (`WhoCancels`).
- **Traffic can be missing from a session's record.** A report that finds the session gone is dropped, and
  one that looked it up before a close and writes after the record was sealed is lost. Every update is
  credited, late or missed (`EveryUpdateHasOneFate`, `CreditedUnlessSealed`, `MissedForGood`), and the
  record of a relayed connection is complete if and only if none was late or missed
  (`BilledInFullExactlyIfOnTime`). A termination that is through before the upload flushes loses what
  the upload had not reported (`TerminationLosesThePending`); a session closed after its relay is over shows everything
  (`BilledInFullIfStillActive`).
- **Allocating bandwidth never returns an error**, though taking tokens does: the allocator falls back or
  waits on every shortfall (`TransfersEndGranted`). The relay would otherwise lose reports
  (`FailedAllocationLosesThePending`), so `EveryWriteIsReported` is proved of relay and allocator together.

## Model

| member | source | states |
|---|---|---|
| `TokenBucket.CreditIsPaidFor` | src/qos/token_bucket.rs:99-115 | a refill never credits more than the elapsed time is worth at the current rate |
| `TokenBucket.SkippedIsSmall` | src/qos/token_bucket.rs:102-113 | a refill is skipped only for time worth less than one token or shorter than a millisecond |
| `TokenBucket.RefillIsIdempotent` | src/qos/token_bucket.rs:99-115 | a second refill at the same instant changes nothing |
| `TokenBucket.CallIsPaidFor` | src/qos/token_bucket.rs:45-74 | one call hands out no more than the tokens it found plus what the time since the last refill is worth |
| `TokenBucket.TakenIsPaidFor` | src/qos/token_bucket.rs:45-115 | over any sequential run, tokens handed out up to an instant are covered by the tokens held at the start and the time since the last refill |
| `TokenBucket.WindowBound` | src/qos/token_bucket.rs:45-115 | every run and every window (t1, t2]: at most capacity + rate x window + the larger of one token and one millisecond of rate |
| `TokenBucket.WindowSlackIsNeeded` | src/qos/token_bucket.rs:102-106 | a run of two calls that exceeds capacity + rate x window, so the last term cannot be dropped |
| `TokenBucket.RefillIsExact` | src/qos/token_bucket.rs:99-115 | by the clock: no refill within a millisecond; else exactly the whole tokens the elapsed time is worth, up to capacity, and the time is used up only if there was such a token |
| `TokenBucket.SleepIsTheQuotient` | src/qos/token_bucket.rs:159-166 | the computed sleep is the one number that is the exact quotient to the nanosecond or the one-millisecond minimum; a second without a rate |
| `TokenBucket.OneSleepSuffices` | src/qos/token_bucket.rs:79-96 | one sleep ends `consume` if and only if the time slept plus the time not yet credited is worth the deficit |
| `TokenBucket.OneLateSleepSuffices` | src/qos/token_bucket.rs:159-166 | one sleep is enough when the timer is a nanosecond late or the wait divides exactly |
| `TokenBucket.OneSleepCanFallShort` | src/qos/token_bucket.rs:159-166 | with rate 3 and one token missing, a punctual timer makes a second sleep necessary |
| `TokenBucket.ThreeSleepsSuffice` | src/qos/token_bucket.rs:79-96 | for every positive rate, amount within capacity and timer lateness, `consume` succeeds after at most three sleeps |
| `TokenBucket.ConsumeReturnsInTime` | src/qos/token_bucket.rs:79-96 | for every positive rate and amount within capacity `consume` returns at once if the tokens are there, else within the time the deficit is worth, twice the time of a token, each at least a millisecond, and the lateness of its sleeps |
| `TokenBucket.EverySleepIsBounded` | src/qos/token_bucket.rs:79-96 | whatever the amount, no sleep takes longer than the whole amount is worth, or a millisecond |
| `TokenBucket.NeverGranted` | src/qos/token_bucket.rs:79-96 | an amount above capacity is still waiting after any number of sleeps |
| `TokenBucket.ThreeSleepsAreNeeded` | src/qos/token_bucket.rs:79-96 | with rate 3, two tokens missing and punctual timers, two sleeps are not enough and three are |
| `AtomicBucket.Cell.constructor` | src/qos/token_bucket.rs:31-42 | a new bucket is full and was refilled now |
| `AtomicBucket.Cell.CompareExchange` | src/qos/token_bucket.rs:54-64 | writes exactly when the expected value is found, and says which |
| `AtomicBucket.Cell.AddTokens` | src/qos/token_bucket.rs:118-146 | the retry loop with a saturating add ends at old tokens + amount, capped at capacity |
| `AtomicBucket.Cell.RefillSync` | src/qos/token_bucket.rs:99-115 | the bucket becomes `Refilled` of the old one |
| `AtomicBucket.Cell.TryConsume` | src/qos/token_bucket.rs:45-74 | the refill and the retry loop are `TryTake`, about which the rate bounds are proved |
| `AtomicBucket.Cell.Consume` | src/qos/token_bucket.rs:79-96 | the sleep-and-retry loop is `ConsumeFrom`, about which progress is proved |
| `AtomicBucket.Cell.SetRefillRate` | src/qos/token_bucket.rs:149-153 | changes the rate and nothing else |
| `BucketMachine.StepKeepsInv` | src/qos/token_bucket.rs:45-156 | every load, compare-and-exchange, lock and unlock step of any thread keeps the invariant on balance, lock holder and credited time |
| `BucketMachine.NextKeepsInv` | src/qos/token_bucket.rs:45-156 | so do clock ticks, new operations and rate changes |
| `BucketMachine.EveryScheduleIsSafe` | src/qos/token_bucket.rs:45-156 | every interleaving of any number of threads: tokens in [0, capacity]; tokens = capacity + refills - consumption; consumption at most capacity + largest rate x elapsed time |
| `BucketMachine.OversizedIsNeverServed` | src/qos/token_bucket.rs:45-74 | in every interleaving a thread that asks for more than capacity comes out short of its load, never gets to its compare-and-exchange, and no more than the capacity is ever logged as taken |
| `BucketMachine.StepMovesOneThread` | src/qos/token_bucket.rs:45-74 | a step moves only its own thread, and adds to the consumption exactly when it leaves that thread successful |
| `BucketMachine.FailedCasMeansAnotherSucceeded` | src/qos/token_bucket.rs:50-73 | lock-freedom: if a compare-and-exchange fails after its load, another thread's succeeded in between |
| `BucketMachine.BusyLockIsSkipped` | src/qos/token_bucket.rs:99-115 | a thread that finds the refill lock taken goes on without a refill |
| `BucketMachine.AloneIsTryTake` | src/qos/token_bucket.rs:45-74 | refinement: run without interference, the fine-grained steps do exactly what `TryTake` does |
| `FairShare.AllocateGuarantees` | src/qos/htb.rs:402-410 | phase 1: one guarantee each, and what is left of the global bandwidth, not below zero |
| `FairShare.TotalDemand` | src/qos/htb.rs:417 | the sum of the demands |
| `FairShare.CalculateFairShares` | src/qos/htb.rs:398-454 | the loops that fill and overwrite the allocations compute `Shares` |
| `FairShare.ShareIsTheLargestPart` | src/qos/htb.rs:420-451 | a share is the guaranteed rate and the largest part of the remainder that the demand, or an equal split, allows up to the maximal rate; exactly the maximal rate if that part covers it |
| `FairShare.ShareInRange` | src/qos/htb.rs:398-454 | every share lies between the guaranteed and the maximal rate |
| `FairShare.ShareIsMonotone` | src/qos/htb.rs:420-439 | a larger demand never gets a smaller share |
| `FairShare.SharesFit` | src/qos/htb.rs:398-454 | the shares add up to at most the global bandwidth if the guarantees fit in it, and to exactly the guarantees if not |
| `FairShare.OversubscribedWastesLittle` | src/qos/htb.rs:424-427 | oversubscribed and uncapped, fewer than n units of the bandwidth are left unassigned |
| `Htb.NextKeepsInv` | src/qos/htb.rs:160-216 | every step of every transfer, rebalancing and probe keeps the buckets' invariants and the accounts of bytes |
| `Htb.EveryRunConserves` | src/qos/htb.rs:160-216 | in every interleaving each completed allocation was granted and came from exactly one of its user's two buckets; what left the global bucket is the sum over users of that, and what is in flight |
| `Htb.GlobalBandwidthBound` | src/qos/htb.rs:160-216 | all users together get at most burst + global rate x elapsed time |
| `Htb.UserBandwidthBound` | src/qos/htb.rs:356-395 | all bytes completed for one user are at most 2 x burst + (guaranteed + maximal rate) x elapsed time, under any rebalancing |
| `Htb.TransfersEndGranted` | src/qos/htb.rs:160-216 | a transfer leaves the allocator only by its own step, and is then granted: no shortfall is ever returned as an error |
| `Htb.BorrowsOnlyOnAShortfall` | src/qos/htb.rs:183-216 | in every run a completed allocation that was borrowed had an earlier attempt of its own refused by the user's guaranteed bucket; one from the guaranteed bucket came at the first attempt there and tried no other |
| `Htb.GuaranteedDecides` | src/qos/htb.rs:183-199 | if the attempt on the guaranteed bucket succeeds the transfer ends with that source; if it is short the borrowed bucket is next |
| `Htb.UndisturbedTakesTheGuarantee` | src/qos/htb.rs:183-190 | undisturbed, a transfer whose bytes are in its guaranteed bucket takes them from there |
| `Htb.RebalanceSetsTheShare` | src/qos/htb.rs:378-381 | a rebalance sets a borrowed bucket's rate to the share of that user's own demand and changes nothing else |
| `Htb.PassSetsEveryShare` | src/qos/htb.rs:374-388 | after a pass each active user's borrowed bucket has its own share for its rate |
| `Htb.RatesInForce` | src/qos/htb.rs:356-395 | in every run the global and guaranteed buckets keep their configured rates, and borrowed ones one between guaranteed and maximal |
| `Htb.NewcomersStartFull` | src/qos/htb.rs:36-45 | a new user's buckets are full, at the guaranteed and the maximal rate |
| `Htb.StartsAtTheConfiguredRate` | src/qos/htb.rs:103-116 | the global bucket starts full at the global rate |
| `Htb.UsersAddUp` | src/qos/htb.rs:160-216 | the bytes of all completed allocations are the sum of the users' bytes |
| `Admission.NextKeepsInv` | src/qos/mod.rs:104-160 | each load, increment, decrement and gauge step keeps the relation between counters, gauge and the handlers' positions |
| `Admission.QuietCountersAgree` | src/qos/mod.rs:104-160 | every run: when no handler is mid-update, total = live guards = sum of user counts, and the gauge is the number of users with a live connection |
| `Admission.LiveIsCounted` | src/server/handler.rs:944-954 | a live guard is always counted for its user, so its decrement never goes below zero |
| `Admission.TurnedAwayOnlyAtALimit` | src/qos/mod.rs:112-126 | a handler is turned away exactly at a check that finds the total, or its user's count, at the limit |
| `Admission.AdmittedBelowTheLimits` | src/qos/mod.rs:104-134 | below both limits and undisturbed an arriving handler goes live and is counted once, in the gauge too if it is its user's first |
| `Admission.LimitsHold` | src/qos/mod.rs:104-136 | every run with at most K handlers between check and increment: counts never exceed limit - 1 + K, so never the limit for K = 1 |
| `Admission.RaceReachesTheBound` | src/qos/mod.rs:110-128 | for all positive limits and every K, runs with at most K undecided handlers in which the total, and one user's count, reach limit - 1 + K (the latter if the global limit leaves room) |
| `Pool.PopTakesNewestOrDrains` | src/server/pool.rs:497-512 | on an ordered list popping returns the newest stream, or finds it expired and drains the whole list as expired |
| `Pool.CleanKeepsASuffix` | src/server/pool.rs:685-701 | on an ordered list cleanup keeps a suffix, exactly the unexpired streams |
| `PoolRuns.NextKeepsInv` | src/server/pool.rs:314-703 | every get, put, release, refresh, cleanup and tick keeps all six parts of the invariant |
| `PoolRuns.IdleCounterIsTheScan` | src/server/pool.rs:537-580 | every run: the atomic idle counter equals the scan it replaces; no list is empty; each list has at most max(1, per-destination limit) and the pool at most max(1, global limit) streams |
| `PoolRuns.GlobalCountersAreSums` | src/server/pool.rs:140-177 | every run: each global counter is the sum of its destinations' counters |
| `PoolRuns.StreamsAreConserved` | src/server/pool.rs:314-487 | every run, per destination and overall: created = idle + in use + dropped + expired + evicted + discarded, and in use = active = streams held by clients |
| `PoolRuns.NoStreamIsSharedTwice` | src/server/pool.rs:490-534 | no stream is idle in two places or handed out while somebody holds it |
| `PoolRuns.EvictionTakesTheOldest` | src/server/pool.rs:645-678 | comparing list heads only, eviction removes a globally oldest stream |
| `PoolRuns.GetTakesTheNewest` | src/server/pool.rs:314-388 | a get returns its destination's newest stream, or drains the list as expired and takes the new connection |
| `PoolRuns.VictimsByNumbers` | src/server/pool.rs:547-563 | which destination may lose a stream when one is stored: none if the destination is at its limit or the pool below its own, else one with the oldest head |
| `PoolRuns.SomeVictim` | src/server/pool.rs:645-678 | there always is such a choice |
| `PoolRuns.PutByNumbers` | src/server/pool.rs:390-431 | in every run a stream put back for reuse while its destination has fewer than max(1, limit) becomes the newest of its list and nothing is dropped; otherwise it is dropped and counted; nothing is evicted below the global limit |
| `PoolRuns.RefreshByNumbers` | src/server/pool.rs:583-625 | the same for a connection made by a refresh |
| `PoolRuns.GetByAge` | src/server/pool.rs:490-534 | in every run, by the clock: a get hands out the newest stream if it was stored within the timeout and books nothing as expired, else all in the list are older and all are booked |
| `PoolRuns.CleanupByAge` | src/server/pool.rs:681-703 | in every run a cleanup keeps exactly the streams stored within the timeout and books exactly the others |
| `PoolRuns.GetCounts` | src/server/pool.rs:314-388 | a get counts one hit and reuse, or one miss and, if it connects, one creation |
| `PoolRuns.DisabledPoolIsBypassed` | src/server/pool.rs:314-318 | a pool that is switched off hands on what was connected, and put and release leave it as it is |
| `ConnectionPool.ConnectionPool.constructor` | src/server/pool.rs:283-312 | an empty pool |
| `ConnectionPool.ConnectionPool.Count` | src/server/pool.rs:140-147 | one update of a global counter and of its destination's |
| `ConnectionPool.ConnectionPool.RecordExpiredCount` | src/server/pool.rs:149-165 | books expired streams and takes them off the idle counter |
| `ConnectionPool.ConnectionPool.RecordEviction` | src/server/pool.rs:167-177 | books one eviction and takes it off the idle counter |
| `ConnectionPool.ConnectionPool.DecrementInUse` | src/server/pool.rs:179-194 | in-use counters go down by one, not below zero |
| `ConnectionPool.ConnectionPool.IncrementActive` | src/server/pool.rs:196-202 | one more active stream |
| `ConnectionPool.ConnectionPool.DecrementActive` | src/server/pool.rs:204-215 | one less, and no entry is left at zero |
| `ConnectionPool.ConnectionPool.TryGetFromPool` | src/server/pool.rs:490-534 | the popping loop and its bookkeeping are `TakeIdle` |
| `ConnectionPool.ConnectionPool.GetStream` | src/server/pool.rs:314-388 | is `Get`, with the connection attempt as a parameter |
| `ConnectionPool.ConnectionPool.OldestHead` | src/server/pool.rs:646-663 | finds an address whose list head is oldest; none only if there are no heads |
| `ConnectionPool.ConnectionPool.EvictOldest` | src/server/pool.rs:645-678 | removes that head and no other stream |
| `ConnectionPool.ConnectionPool.InsertStream` | src/server/pool.rs:537-580 | drops if the list is full, else evicts if the pool is, else only stores; reports which |
| `ConnectionPool.ConnectionPool.PutStream` | src/server/pool.rs:390-458 | is `Put`, with an eviction the pool allows |
| `ConnectionPool.ConnectionPool.ReleaseStream` | src/server/pool.rs:461-487 | is `Release` |
| `ConnectionPool.ConnectionPool.Refresh` | src/server/pool.rs:583-625 | is `RefreshConnection`, with an eviction the pool allows |
| `ConnectionPool.ConnectionPool.Retain` | src/server/pool.rs:685-688 | keeps exactly the unexpired connections, in order |
| `ConnectionPool.ConnectionPool.CleanDestination` | src/server/pool.rs:685-701 | is `Clean` |
| `ConnectionPool.ConnectionPool.CleanupExpired` | src/server/pool.rs:681-703 | visits every destination once, in any order; afterwards exactly the unexpired streams are idle and no list is empty |
| `Wildcard.LabelsOfJoin` | src/acl/matcher.rs:136 | splitting a joined list of dotless labels gives the list back |
| `Wildcard.JoinOfLabels` | src/acl/matcher.rs:136 | joining the labels of a string gives the string back |
| `Wildcard.EscapeLabel` | src/acl/matcher.rs:144-151 | the character loop escapes exactly the special characters |
| `Wildcard.AppendPart` | src/acl/matcher.rs:137-152 | adds the separator, if one is written, and the label's expression |
| `Wildcard.WildcardToRegex` | src/acl/matcher.rs:133-156 | the nested loops compute `Regex`, whose meaning is proved below |
| `Wildcard.CodeMeansAtoms` | src/acl/matcher.rs:133-156 | for every pattern, under a scanner for the fragment of regular expressions in use, the output reads back as atoms: literals, separators, dot-free runs, and stars that repeat what precedes them |
| `Wildcard.AtomsMatchLabels` | src/acl/matcher.rs:111-118 | if all separators are written, these atoms match a text exactly when it has the same number of labels, each equal to its literal or non-empty under a star |
| `Wildcard.FaithfulPatternsMeanWhatTheySay` | src/acl/matcher.rs:111-156 | a faithful pattern's expression matches a host exactly when the pattern means it |
| `Wildcard.UnfaithfulPatternsMissAHost` | src/acl/matcher.rs:111-156 | for every other pattern whose stars are whole labels, a host that it means and the code does not match |
| `Wildcard.PartialStarsAreMisread` | src/acl/matcher.rs:141-152 | for every pattern with a star inside a longer label, a host on which code and meaning differ |
| `Wildcard.PartialStarsCoverNothingNew` | src/acl/loader.rs:84-90 | a pattern such as prod-*.company.com matches no host with a character it does not spell out |
| `Wildcard.CodeIsRightExactlyOnFaithfulPatterns` | src/acl/matcher.rs:133-156 | for every pattern, code and meaning agree on all hosts if and only if its stars are whole labels, it is lower case, has no leading empty label and no caret before a dot |
| `Wildcard.UpperCaseRulesAreDead` | src/acl/matcher.rs:111-118 | a wildcard with an upper-case letter, its stars whole labels, matches no host |
| `PortTexts.MatchingIsMembership` | src/acl/matcher.rs:189-197 | the matcher accepts exactly the ports an expression stands for: all, one, the consecutive ones of a range, the listed ones |
| `PortTexts.ReadsWhatIsShown` | src/acl/types.rs:108-141 | every expression of 16-bit ports, written out, is read back as itself |
| `PortTexts.BackwardRangesAreEmpty` | src/acl/types.rs:113-126 | a range whose end comes before its start is read without error and matches no port |
| `Acl.LowerIgnoresCase` | src/acl/matcher.rs:102-108 | names are equal in lower case exactly if they differ at most in the case of ASCII letters |
| `Acl.MatchingIsMeeting` | src/acl/types.rs:24-30 | protocols match exactly if they have a transport in common |
| `Acl.CompiledDestinationIsRight` | src/acl/matcher.rs:28-118 | a compiled destination matches exactly the addresses that it means as written, for every address, if and only if it has no stars, is one star, or is a faithful pattern |
| `Acl.CompiledMatchesAsTaken` | src/acl/matcher.rs:210-254 | a compiled rule matches a request exactly if a protocol shares a transport with it, a port expression stands for its port, and a destination as written covers its address, patterns read by the regular expression's own semantics |
| `Acl.FaithfulRulesAreTakenAsMeant` | src/acl/matcher.rs:236-254 | a rule with faithful patterns matches exactly the requests that it means |
| `Acl.UpperCasePatternsDecideNothing` | src/acl/matcher.rs:111-118 | a rule all of whose destinations are upper-case patterns matches nothing |
| `Acl.UpperCaseRuleMayGo` | src/acl/matcher.rs:111-118 | leaving out such a rule changes no decision |
| `Acl.FaithfulVerdict` | src/acl/matcher.rs:236-254 | if the rules that apply have faithful patterns, decision and reported rule are those that are meant |
| `Acl.UnfaithfulRuleGoesWrong` | src/acl/matcher.rs:133-156 | for every unfaithful pattern there is a host for which a single blocking rule decides other than meant |
| `Acl.OnlyDefinedNamesMatter` | src/acl/engine.rs:261-299 | the decision is unchanged by permuting, repeating or re-casing directory groups or adding undefined ones |
| `Acl.EvaluationsAgree` | src/acl/engine.rs:217-299 | if the user's configured groups lead to the same group entries by name and ignoring case, both evaluations decide alike, for all rules and every user, known or not |
| `Acl.EvaluationsDisagree` | src/acl/engine.rs:217-299 | if not, there are rules for the same users, memberships and group names on which they decide differently |
| `Acl.ValidLookups` | src/acl/engine.rs:353-380 | in a valid configuration that condition holds if and only if each of the user's groups is the last one with its lower-case name |
| `Acl.DistinctNamesSuffice` | src/acl/engine.rs:353-380 | in particular if no two group names are equal ignoring case |
| `AclEngine.InsertedIsSorted` | src/acl/engine.rs:66-70 | the order is total: inserting into a sorted list keeps it sorted |
| `AclEngine.SortRules` | src/acl/engine.rs:237-241 | some sorted permutation, all that callers may assume of the unstable sort |
| `AclEngine.CompileDestinations` | src/acl/matcher.rs:213-217 | succeeds exactly if every destination compiles, and keeps their order |
| `AclEngine.CompilePorts` | src/acl/matcher.rs:219-223 | succeeds exactly if every port expression parses, and keeps their order |
| `AclEngine.CompileRule` | src/acl/matcher.rs:212-233 | succeeds exactly if all parts compile |
| `AclEngine.CompileRules` | src/acl/engine.rs:57-70 | fails if any rule does, else holds the compiled rules sorted, none lost or repeated |
| `AclEngine.CompileUsers` | src/acl/engine.rs:56-80 | the map represents the users, later entries replacing earlier ones |
| `AclEngine.CompileGroups` | src/acl/engine.rs:82-107 | both maps represent the groups, by name and by lower-case name |
| `AclEngine.CompileConfig` | src/acl/engine.rs:51-115 | fails exactly if some rule does not compile; otherwise represents the configuration |
| `AclEngine.FirstMatchWins` | src/acl/engine.rs:141-149 | on a sorted list the first match blocks if any match does, and has the highest priority of its action |
| `AclEngine.FirstMatchIsThePolicy` | src/acl/engine.rs:141-149 | if the list holds exactly the rules that apply, sorted in any way, its first match is the declarative policy's decision and a rule of highest priority |
| `AclEngine.NoMatchIsTheDefault` | src/acl/engine.rs:151-156 | if nothing matches, the default is the policy's decision |
| `AclEngine.Decide` | src/acl/engine.rs:131-156 | sort, first match or default: the policy's verdict, with the reported text |
| `AclEngine.Engine.constructor` | src/acl/engine.rs:42-48 | an engine that represents its configuration |
| `AclEngine.Engine.OwnRules` | src/acl/engine.rs:220-223 | exactly the user's own rules |
| `AclEngine.Engine.CollectRules` | src/acl/engine.rs:217-244 | exactly the rules of the user and of its configured groups |
| `AclEngine.Engine.CollectRulesFromGroups` | src/acl/engine.rs:261-299 | exactly the rules of the user and of the directory groups that the configuration defines, ignoring case |
| `AclEngine.Engine.Evaluate` | src/acl/engine.rs:118-156 | for every configuration and request: Block iff an applicable matching rule blocks, else Allow iff one allows, else the default; the reported rule has the highest priority of its action. With faithful patterns, matching is what the destinations mean |
| `AclEngine.Engine.EvaluateWithGroups` | src/acl/engine.rs:173-214 | the same for directory groups, in both senses, with its own text when no rule applies |
| `AclEngine.Engine.Reload` | src/acl/engine.rs:322-336 | a configuration takes effect if and only if it validates and compiles; otherwise nothing changes |
| `AclEngine.Validate` | src/acl/engine.rs:353-380 | accepts exactly configurations with distinct users, distinct groups and no dangling group reference |
| `Traffic.SaturatingOnceIsEnough` | src/session/manager.rs:391-400 | saturating at every update equals the exact sum capped once, so the order of updates is irrelevant |
| `Relay.NextKeepsInv` | src/server/proxy.rs:237-518 | every step of either task and every outside cancellation keeps accounts, phase bounds and byte order |
| `Relay.FailedAllocationLosesThePending` | src/server/proxy.rs:300-302 | an allocation error would lose exactly the pending batch: nothing is lost if and only if nothing was pending |
| `Relay.BytesArriveInOrder` | src/server/proxy.rs:257-338 | what was written is a prefix of what was read, short of at most one buffer, and all of it at loop heads |
| `Relay.EveryHintIsRefresh` | src/server/proxy.rs:136-180 | in every run the hint is never Reuse; a stream comes back, as Refresh, exactly when both directions finish without error |
| `Relay.WhichErrorIsReturned` | src/server/proxy.rs:128-207 | no error exactly if both directions finish; that the connection was closed exactly if either was cancelled; else the first failure |
| `Relay.WhoCancels` | src/server/proxy.rs:363-373 | the token is cancelled exactly from outside or by a task that leaves its loop; failures do not cancel it |
| `Relay.FlushPending` | src/server/proxy.rs:521-589 | hands over the pending counts, if there are packets, and clears them |
| `Relay.Pump` | src/server/proxy.rs:237-374 | the loop with its local variables, breaks and early returns does what the machine's steps do, turn by turn, and at every exit but an allocation error has reported what it wrote |
| `Relay.PumpedWritesAreReported` | src/server/proxy.rs:257-373 | the same of the machine's turns, for any sequence of I/O outcomes |
| `Proxy.OpenedIsReady` | src/server/proxy.rs:95-126 | the start that the next results assume exists: a session just opened and an allocator at rest |
| `Proxy.NextKeepsInv` | src/server/proxy.rs:87-518 | every step of either direction, of any transfer in the allocator and of any caller of the manager keeps relay, allocator and session consistent |
| `Proxy.EveryWriteIsReported` | src/server/proxy.rs:237-518 | in every interleaving of relay, allocator and manager no direction ends for want of bandwidth; at every exit its reports add up to its completed writes, in bytes and packets; at loop heads fewer than one interval's packets are unreported |
| `Proxy.BilledInFullExactlyIfOnTime` | src/server/proxy.rs:521-589 | when the relay is over, what was written is what was credited, late and missed; the filed record shows what was credited, which is everything if and only if every report found the session active and was written before the seal |
| `Proxy.BilledInFullIfStillActive` | src/server/proxy.rs:521-589 | a session that is still active when its relay is over shows exactly the bytes and packets written each way |
| `Proxy.TerminationLosesThePending` | src/server/proxy.rs:257-264 | the cancelled run: a termination files the record without the upload's unreported packets, and the report it provokes is missed |
| `Sessions.OpenedKeeps` | src/session/manager.rs:132-167 | opening puts a new session in exactly one table and gives it a control entry |
| `Sessions.ClosedOffKeeps` | src/session/manager.rs:418-443 | closing keeps every session in exactly one table and loses none |
| `Sessions.NewRecordShows` | src/session/types.rs:170-200 | a new record carries what it was opened with, no traffic, and is active |
| `Sessions.ClosedRecordShows` | src/session/manager.rs:418-443 | a closed record is the active one with the reason and status of the close, all else as it was |
| `Sessions.RejectedRecordShows` | src/session/manager.rs:464-491 | a rejected record has the status and reason of a rejection |
| `Sessions.ClosingIsIdempotent` | src/session/manager.rs:418-443 | only the first close has any effect |
| `Sessions.ClosedIsFinal` | src/session/manager.rs:379-460 | a closed session ignores traffic and terminations |
| `Sessions.SweptOneMore` | src/session/manager.rs:511-515 | one more termination sweeps one more session and touches nothing else |
| `Sessions.SessionManager.constructor` | src/session/manager.rs:65-81 | all tables empty |
| `Sessions.SessionManager.NewSession` | src/session/manager.rs:132-167 | the new session is active and controllable; nothing else changes |
| `Sessions.SessionManager.CloseSession` | src/session/manager.rs:418-443 | moves an active session to closed with reason and status, drops its control; otherwise only drops a control |
| `Sessions.SessionManager.TerminateSession` | src/session/manager.rs:446-461 | cancels the token and signals UDP shutdown if there is a control, then closes |
| `Sessions.SessionManager.TrackRejected` | src/session/manager.rs:464-491 | appends a rejected record |
| `Sessions.SessionManager.UpdateTraffic` | src/session/manager.rs:379-415 | adds, saturating, to an active session; no effect otherwise |
| `Sessions.SessionManager.TerminateAll` | src/session/manager.rs:511-515 | exactly the given sessions go to closed, each once, tokens cancelled, all else unchanged, in any order |
| `Sessions.SessionManager.CloseAllActive` | src/session/manager.rs:504-516 | every active session, and afterwards no session or control is left |
| `Sessions.SessionManager.EnforceAcl` | src/session/manager.rs:519-575 | exactly the active sessions that the engine's static policy blocks go to closed as failed, token cancelled, with the reported rule in the reason; the rest is unchanged. For users whose rules have faithful patterns these are the sessions that are meant to be blocked |
| `Sessions.RequestDescribes` | src/session/manager.rs:527-538 | what is evaluated for a session is the one request with its port, its transport, and the address its destination spells, or else the name |
| `Sessions.OtherTransportIsSpared` | src/session/manager.rs:519-575 | if every applicable blocking rule is for UDP only no TCP session is revoked, and conversely |
| `Sessions.OwnTransportIsRevoked` | src/session/manager.rs:519-575 | an applicable blocking rule for everything on a session's own transport and port revokes it |
| `Sessions.RevokedAsMeant` | src/session/manager.rs:519-575 | such a user's session is revoked exactly if the policy on what rules mean blocks it |
| `SessionRaces.NextKeepsInv` | src/session/manager.rs:132-461 | every step of concurrent openers, closers and updaters keeps place, controls, bills and the fates of updates |
| `SessionRaces.EverySessionIsInOnePlace` | src/session/manager.rs:132-167 | every interleaving: an issued session is in exactly one place, in one table, once, or with the one caller that is moving it; others are nowhere |
| `SessionRaces.QuietTablesAgree` | src/session/manager.rs:418-491 | between operations every issued session is in exactly one of active, closed and rejected, and controls cover exactly the active ones |
| `SessionRaces.ClosedRecordsAreBilled` | src/session/manager.rs:427-436 | a closed record shows exactly the updates credited before it was sealed, added up and capped |
| `SessionRaces.EveryUpdateHasOneFate` | src/session/manager.rs:379-404 | every interleaving: each update asked for is exactly one of in flight, credited, late and missed, and none is in flight when all is quiet |
| `SessionRaces.FatesAreFinal` | src/session/manager.rs:379-404 | an update that is credited, late or missed stays so |
| `SessionRaces.MissedForGood` | src/session/manager.rs:386 | an update that finds no active session is missed |
| `SessionRaces.CreditedUnlessSealed` | src/session/manager.rs:386-404 | an update that finds it is credited if and only if its record has not been sealed when it is written, and late if and only if it has |
| `SessionRaces.SignalsOrIsLate` | src/session/manager.rs:446-461 | a termination that finds the session active cancels its token unless another closer has already cut it off |
| `SessionRaces.SettledForGood` | src/session/manager.rs:386-404 | once a session has left the active table and no update holds its record, nothing more is credited to it or comes late: every further update is missed |
| `SessionRaces.LateUpdateIsLost` | src/session/manager.rs:386-404 | an update looked up before a close and written after it does not reach the closed record |
| `SessionRaces.AloneIsClosedOff` | src/session/manager.rs:418-443 | refinement: a close that is not interrupted does what the sequential operation does |
| `Utf8.TextIsRead` | src/protocol/parser.rs:420-422 | the encoding of every sequence of Unicode scalar values is accepted as text |
| `Utf8.TextIsWritten` | src/protocol/parser.rs:420-422 | and nothing else is |
| `Codec.AddressIsLayout` | src/protocol/parser.rs:394-441 | the address parser finds exactly the fitting addresses whose bytes come first |
| `Codec.ParsingIsLayout` | src/protocol/parser.rs:345-466 | parsing yields a packet if and only if the datagram has ten bytes, frag 0, a fitting name, and is that packet's layout after the reserved bytes |
| `Codec.AddressOnTheWire` | src/protocol/parser.rs:472-506 | on the bytes: two zeros, the fragment number, the type code, the address, a name's length before at most 255 bytes of it |
| `Codec.PortIsHighByteFirst` | src/protocol/parser.rs:508-509 | the two bytes after the address are the port's high byte and its low byte |
| `Codec.PortIsReadHighByteFirst` | src/protocol/parser.rs:443-450 | and are read so |
| `Codec.PacketRoundTrips` | src/protocol/parser.rs:345-515 | parsing a serialized packet returns it if and only if frag is 0, a name has at most 255 bytes, and name and data make up the ten-byte minimum |
| `Codec.DatagramRoundTrips` | src/protocol/parser.rs:345-515 | serializing a parsed datagram restores it with the reserved bytes cleared, and parses the same again |
| `Codec.ReadAddress` | src/protocol/parser.rs:394-441 | the cursor moves past the address that `ParseAddress` finds, or stops with its error |
| `Codec.ParseUdpPacket` | src/protocol/parser.rs:345-466 | the cursor loop returns exactly that packet, or the error of the first check that fails |
| `Codec.AppendAddress` | src/protocol/parser.rs:488-506 | appends the address layout |
| `Codec.SerializeUdpPacket` | src/protocol/parser.rs:472-515 | the grown buffer is the layout, with names cut at 255 bytes |
| `Codec.DecodingIsLayout` | src/protocol/parser.rs:522-567 | decoding finds exactly the sendable messages a stream begins with, up to the code used for an abort |
| `Codec.TypesOnTheWire` | src/protocol/types.rs:186-207 | the codes of the message types; every unknown code is read as an abort |
| `Codec.LengthIsHighByteFirst` | src/protocol/parser.rs:583-600 | on the bytes: version 1, the type code, the length's high and low byte, the token |
| `Codec.MessageRoundTrips` | src/protocol/parser.rs:522-611 | a message survives whatever follows it if sendable; an unsendable one is never the result of decoding |
| `Codec.StreamRoundTrips` | src/protocol/parser.rs:522-611 | any list of messages written back to back decodes to itself, each taking exactly its own bytes, if and only if all are sendable |
| `Codec.ByteStream.ReadExact` | src/protocol/parser.rs:527-560 | consumes exactly n bytes or fails |
| `Codec.ParseGssapiMessage` | src/protocol/parser.rs:522-567 | the stream is left exactly at the bytes after the message |
| `Codec.SendGssapiMessage` | src/protocol/parser.rs:572-611 | writes the encoding, and a sendable message is read back whatever follows |

## Left out

- Floating point: the `f64` products are exact floors, `elapsed * rate / 10^9` and `demand * remaining / total`.
- The computed sleep is the exact quotient rounded down to a nanosecond; versions of the standard library that round it to the nearest one sleep up to a nanosecond longer, which the lateness of timers in the model covers.
- Overflow of 64-bit sums in the bandwidth code (total demand, statistics, pool counters); traffic counters and the bucket's add do saturate as in the source.
- A guaranteed rate above the maximal one: the source subtracts one from the other (src/qos/htb.rs:434), so it is assumed not to happen.
- Time-outs, sockets, TLS, DNS and task spawning: results of I/O and the clock are inputs of the model. The relay's halves always reunite, and a write that fails counts as not completed.
- Demand estimation and activity (src/qos/htb.rs:48-61, src/qos/htb.rs:457-471): rebalancing works for any demands; the refills that reading the levels causes are modelled.
- Engines without QoS: they allocate at once and count nothing.
- Memory orderings: loads and compare-and-exchanges interleave but are sequentially consistent.
- Pool operations at a finer grain: each get, put, release, refresh and cleanup of one destination is one step. Between them `evict_oldest` can report an address whose list is gone (src/server/pool.rs:665-676), so counter agreement is not claimed there.
- Pending connection counts, last-activity and last-miss times, capacity log events and telemetry of the pool.
- Parsing of IP literals and networks, and whether the regex library accepts an expression, are parameters of the engine. The expressions that the compiler emits have a semantics of their own, and the library is assumed to follow it on them; in it a star after the start anchor repeats the anchor, which then need not hold.
- Case folding and white space beyond ASCII: the source lowers hosts and plain names, and trims the parts of port lists, with Unicode rules.
- A star inside a longer label is taken to mean one or more characters of that label, as a whole-label star does; the source states no other meaning.
- The locks that make compiling and swapping a configuration atomic for readers.
- Times and durations of sessions, statistics and snapshots, metrics, database batching, and the queued traffic worker, which runs on its own copy of the active map (src/session/manager.rs:84).
- Uniqueness of generated session identifiers is assumed. Which handler error paths close their session is not modelled.
- UDP shutdown signals in the concurrent session model; the sequential one has them.
- What a stream has consumed when a GSS-API message ends too early.
- SOCKS 4 and 5 handshakes, authentication, configuration loading, persistence of rules, REST API and dashboard.
- Codec.SendGssapiMessage: a token of 65536 bytes or more gets a truncated length, as in the source; nothing is promised about what a reader makes of the rest.
- Htb.NextKeepsInv: an allocation's activity time and byte statistics are not part of the state.
