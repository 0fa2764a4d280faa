# Verified model of the derivatives data collector

The service plans collection jobs, lets workers claim and run them under rate limits and
circuit breakers, validates and stores what they bring back, buffers realtime snapshots,
and rolls up and deletes old rows.  This project models the parts of it that carry state,
arithmetic or a protocol, and proves what holds over whole runs, loops and compositions.
Each file is one module; code that updates state in place is a class or a method proved
against a specification function, and the guarantees are lemmas about that function.

| part | modules |
|---|---|
| job queue: rows, claims, reports, recovery, planning, backfill, keys | JobTable, JobProtocol, Worker, Planner, Backfill, Idempotency |
| admission control: token buckets, Wait, circuits, budget allocation | TokenBucket, Limiter, CircuitBreaker, Allocator |
| retention: policies, rollups, delete loop, runs in a row, partitions, calendar | RetentionPolicy, Rollup, RetentionEngine, RetentionRuns, Partitions, Calendar |
| data path and realtime: quality filter, writer, CVD, RESP, snapshots | Quality, Writer, Cvd, Resp, Snapshot |
| shared | Wrappers, Text, Decimal, Numbers, Modular |

`dafny verify dfyconfig.toml` checks everything.

What the proofs show about the code beyond its promises:

- A resolving UPDATE matches on the id alone, so a report that arrives after recovery can
  put a finished job back to pending (`JobProtocol.LateFailureRevivesFinishedRow`).
  `JobProtocol.SuccessIsSafeIff` and `JobProtocol.FailureIsSafeIff` say exactly when a
  report does no harm, and by `JobProtocol.FinalIff` a finished row is final exactly when
  no unresolved claim names it.
- A delay is cut down to whole nanoseconds, so a reservation that is short by less than one
  nanosecond of refill is admitted without being charged, and again, any number of times
  at that instant.  `TokenBucket.UnpaidIff` is the exact condition on one reservation;
  `TokenBucket.AdmissionBoundedIff` says exactly for which budgets the rates bound what is
  admitted in every run.
- Jitter makes `Wait` reserve again after the jitter sleep.  A lone `Wait` pays at most once
  exactly when no draw is positive (`Limiter.PaysOnceIff`), otherwise it can pay at every
  turn, and with a positive minimum jitter nobody ever returns (`Limiter.NeverReturnsIff`).
- A rollup recomputed after part of its candle was deleted loses the deleted part.  A run
  can split a candle exactly when two of its rows lie on either side of the cutoff or of
  the row cap (`RetentionRuns.CanSplitIff`).  Runs that the cap does not stop are safe for
  every table exactly when the cutoff is on a candle boundary, and every cap has a table
  that it can split.  On values and over whole histories, `RetentionRuns.ValuesAreKeptIff`
  says when the candles a run wrote are kept for good.
- A rollup policy without an interval column deletes rows of every interval, so it can
  delete the candles it has just written (`RetentionRuns.OwnCandlesAreSafeIff`), and a dropped
  partition takes the candles that start in its range (`RetentionRuns.DropsKeepOwnCandlesIff`).
- Two lookups of one planning run can share a cache key when exchanges or tiers contain
  colons; for some store the caches then change the plan, and without such a pair they never
  do (`Planner.CachesDoNotShowIff`).
- Liquidations are aggregated by the minute for every period but "5m", so an aggregate
  labelled 15m or 1h covers one minute (`Writer.BucketMatchesNameIff`).
- Week 53 is accepted for every year; in a 52-week year it is week 1 of the next year.
- A failed flush puts older events over newer ones of the same key; `Snapshot.AlwaysNewestIff`
  says in which runs that never happens.
- Aggregates derived from liquidation events are the only thing the writer can send that
  its own repository rejects, and that happens exactly when the job's period is malformed
  or an event lies in the bucket of the zero time.

Where the code and its documentation differ, the model follows the code: docs/scheduler.md
lets a job retry while `retryCount < maxRetry`, the worker gives up when
`retryCount + 1 >= maxRetry`; the document has the collector call the recovery, the code
calls it when the scheduler service starts.

## Model

| member | source | states |
|---|---|---|
| `JobTable.JobStore.InsertJobs` | internal/scheduler/repository.go:101-156 | inserting a batch is the fold of single inserts that skip taken keys; the count returned is the growth of the table |
| `JobTable.InsertKeepsRows` | internal/scheduler/repository.go:101-156 | inserting changes no stored row, keeps keys unique, and takes exactly the keys of the batch in addition |
| `JobTable.EarlierJobWins` | internal/scheduler/repository.go:115-148 | of several jobs with one key in a batch the first is the one stored, as a fresh pending row |
| `JobTable.ReinsertAddsNothing` | internal/scheduler/repository.go:115-148 | a batch whose keys are all stored adds nothing |
| `JobTable.SelectBatch` | internal/scheduler/repository.go:165-190 | the picked rows are due, unlocked, as many as the limit allows, and ordered before every row left behind |
| `JobTable.BatchIsUnique` | internal/scheduler/repository.go:165-190 | priority, schedule and id order the rows totally, so the claim query has exactly one answer |
| `JobTable.JobStore.ClaimPendingJobs` | internal/scheduler/repository.go:158-206 | a limit below one is an error that changes nothing; otherwise exactly the selected batch turns running and everything else stays |
| `JobTable.JobStore.MarkJobSucceeded` | internal/scheduler/repository.go:208-210 | the row becomes succeeded, whatever it was |
| `JobTable.JobStore.MarkJobFailedDetailed` | internal/scheduler/repository.go:221-282 | the row becomes failed or dead letter; a dead letter adds one failed entry unless id or key already has one |
| `JobTable.JobStore.RetryJobLater` | internal/scheduler/repository.go:284-302 | the row goes back to pending with one more retry, scheduled for its next run |
| `JobTable.JobStore.RecoverInterrupted` | internal/scheduler/recovery.go:15-55 | exactly the running rows started before the cutoff are reset with one more retry; their number is returned |
| `JobTable.InsertedIsClaimableIff` | internal/scheduler/repository.go:115-190 | an inserted row can be claimed from its schedule on, with the priority and limits it came with |
| `JobTable.RetriedIsClaimableIff` | internal/scheduler/repository.go:284-302 | a retried row can be claimed iff its next run has come and it is not locked; other rows as before |
| `JobTable.RecoveredIsClaimableIff` | internal/scheduler/recovery.go:23-36 | a reset row can be claimed at once |
| `JobProtocol.StepKeepsInv` | internal/scheduler/repository.go:158-319 | every insert, claim, timely report, abandonment, recovery and clock step keeps the claim and row invariants |
| `JobProtocol.ExclusiveClaims` | internal/scheduler/repository.go:158-319 | in every interleaving where reports come within the recovery timeout, a running row has at most one live claimant and other rows have none |
| `JobProtocol.TerminalRowsAreFinal` | internal/scheduler/repository.go:208-319 | under the same hypothesis a succeeded or dead-letter row never changes again |
| `JobProtocol.RetryAccounting` | internal/scheduler/worker.go:152-170 | retry_count is the claims that ended in retry, dead letter or recovery; claims stay within max(1, max_retry) plus recoveries; the failed entries belong to rows and are exactly the dead letters, with the row's count, key and error |
| `JobProtocol.TriesAreExact` | internal/scheduler/worker.go:152-170 | a job that failed recoverably until it was a dead letter, and was never reset, was claimed exactly as often as its retry limit allows, at least once |
| `JobProtocol.ColumnsTellHistory` | internal/scheduler/repository.go:158-319 | in every run, reports at any time, the start, finish, error and retry columns say whether the row was ever claimed or reported on, whether its last outcome was a failure, and until when it waits |
| `JobProtocol.WaitingRowIsLeftAlone` | internal/scheduler/repository.go:165-190 | in every run a pending row is neither claimed nor changed before it is due, unless a report names it |
| `JobProtocol.RetriedRowWaits` | internal/scheduler/repository.go:284-302 | after a retry no run claims or changes the row before its next run, unless another report names it |
| `JobProtocol.RetriedRowComesBack` | internal/scheduler/repository.go:165-190 | the next claim with room takes it iff its next run has come and it is not locked |
| `JobProtocol.RecoveredRowComesBack` | internal/scheduler/recovery.go:23-36 | a reset row is taken by the next claim with room, at the same instant already |
| `JobProtocol.KeysStayUnique` | internal/scheduler/repository.go:115-148 | no run ever stores two rows under one idempotency key |
| `JobProtocol.SuccessIsSafeIff` | internal/scheduler/repository.go:304-319 | a success report, timely or not, keeps the invariants iff the row is running and no other claim on it is live |
| `JobProtocol.FailureIsSafeIff` | internal/scheduler/worker.go:152-170 | a failure report, timely or not, keeps the invariants iff the row is running, no other claim on it is live, and the worker's copy agrees with the row: count and key for a dead letter, budget left for a retry |
| `JobProtocol.FinalIff` | internal/scheduler/repository.go:221-319 | with reports at any time, no run changes a finished row's status or retry_count iff no unresolved claim names it |
| `JobProtocol.UnclaimedRowIsFinal` | internal/scheduler/repository.go:158-319 | a finished row that nobody holds stays identical in every run, timely or not |
| `JobProtocol.LateFailureRevivesFinishedRow` | internal/scheduler/repository.go:284-302 | a concrete run without the timing hypothesis in which a succeeded row turns pending again |
| `Worker.Report` | internal/scheduler/worker.go:152-170 | a failure becomes a dead letter when unrecoverable or on the last retry, otherwise a retry |
| `Worker.OutcomeDecides` | internal/scheduler/worker.go:106-170 | a job ends succeeded iff the executor succeeded, dead letter iff the failure was unrecoverable or its last try, and pending otherwise |
| `Worker.TurnedAwayIsRetried` | internal/scheduler/worker.go:106-170 | a job turned away by the breaker or the limiter is retried at its next run while it has a retry left |
| `Worker.RunOnce` | internal/scheduler/worker.go:84-104 | claims the selected batch, reports in order until the store refuses one, and leaves the remaining rows claimed |
| `Worker.ReportsAreProtocolEvents` | internal/scheduler/worker.go:84-170 | what the loop leaves in the table is what the protocol's report events leave, and other claims are untouched |
| `Worker.PassIsProtocolRun` | internal/scheduler/worker.go:84-170 | a whole RunOnce is a run of the protocol: its claim and reports can happen in any queue, leave the table RunOnce leaves, and form a valid run when all reports come within the timeout |
| `Planner.RunAt` | internal/scheduler/planner.go:47-137 | planning in which every policy asks the stores through the caches its predecessors left, with jobs, skip counts, reasons and the first error |
| `Planner.CachesDoNotShowIff` | internal/scheduler/planner.go:55-97 | whatever the stores answer, that plan is the one of asking them every time iff no two lookups of the run differ and share a cache key |
| `Planner.ColonFreeNeverCollides` | internal/scheduler/planner.go:68-84 | without colons in exchanges and tiers no two lookups collide |
| `Planner.ColonsCanCollide` | internal/scheduler/planner.go:68-68 | with colons they can: exchange a:b with data type c, and exchange a with data type b:c |
| `Planner.PlanPolicy` | internal/scheduler/planner.go:59-123 | one policy: its step through the caches, and the caches it leaves |
| `Planner.CollectMarkets` | internal/scheduler/planner.go:98-122 | the symbol loop adds one job or one skip for each market in order |
| `Planner.Caches.FindEndpoints` | internal/scheduler/planner.go:68-76 | a cached non-empty list, else the store's answer, which is then cached |
| `Planner.Caches.FindSymbols` | internal/scheduler/planner.go:83-92 | a cached non-empty list, else the store's answer, which is then cached |
| `Planner.PlanIsExact` | internal/scheduler/planner.go:59-123 | a job is planned iff some enabled policy with an interval, an endpoint where needed and a named market asks for exactly it |
| `Planner.Lookups` | internal/scheduler/planner.go:61-92 | the symbol limit of a tier, and the endpoint type of a data type, none for aggregated snapshots |
| `Planner.EverythingIsCounted` | internal/scheduler/planner.go:59-123 | every market of a policy that reaches its markets becomes a job or a skip, and every other policy one skip, counted under its own key |
| `Planner.FirstReasonStays` | internal/scheduler/planner.go:59-123 | the reason reported under a key is that of the first policy skipped under it |
| `Planner.PolicyKeysDiffer` | internal/scheduler/planner.go:139-141 | skips of different policies are counted apart, as long as their fields hold no colon |
| `Planner.SameBucketsSamePlan` | internal/scheduler/planner.go:98-114 | two instants in the same bucket of every policy give the same plan |
| `Planner.SecondRunInsertsNothing` | internal/scheduler/planner.go:125-136 | a second run in the same bucket of every policy inserts nothing, whatever the table held |
| `Planner.KeyChangesWithBucket` | internal/scheduler/planner.go:98-114 | for one policy and market the idempotency keys of two instants agree iff their buckets do |
| `Planner.NewBucketNewKey` | internal/scheduler/planner.go:98-114 | a job for a bucket that starts after a run has a key that no job of that run has |
| `Planner.NextBucketIsStored` | internal/scheduler/planner.go:98-136 | so a run in a later bucket stores each of its jobs, unless the table had the key before the first run |
| `Planner.EarliestPolicyIsStored` | internal/scheduler/repository.go:23-50 | whatever the order of the policies, the row stored under a clashing key is a job of the first policy that asks for it |
| `Planner.BestPriorityIsStored` | internal/scheduler/repository.go:23-50 | with policies in priority order, that job has the best priority among all planned under the key |
| `Backfill.PlanBackfillJobs` | internal/scheduler/backfill.go:30-84 | nothing while realtime lags behind its limit; otherwise an error iff interval, window, symbol id or source symbol is missing, else the first MaxJobs aligned instants with abutting windows |
| `Backfill.JobCarriesRequest` | internal/scheduler/backfill.go:42-83 | each job has the fields of its request, a window of one interval inside the gap, and the defaults 1000 and 3 for priority and retries |
| `Backfill.GapIsCovered` | internal/scheduler/backfill.go:52-83 | below the cap every aligned instant of the gap has its job |
| `Backfill.Increasing` | internal/scheduler/backfill.go:52-83 | the jobs are strictly increasing, at least one interval apart |
| `Backfill.KeysDistinct` | internal/scheduler/backfill.go:52-83 | with colon-free fields their keys are pairwise distinct |
| `Backfill.KeyAgreesWithPlanner` | internal/scheduler/backfill.go:52-83 | a backfill key is the key the planner gives to every instant of the job's window |
| `Idempotency.DateOfInverts` | internal/scheduler/idempotency.go:9-19 | the formatted civil date is the one with the instant's day number |
| `Idempotency.FormatReads` | internal/scheduler/idempotency.go:9-19 | a timestamp reads back, field by field, as the instant it was made from, to the second |
| `Idempotency.FormatInjective` | internal/scheduler/idempotency.go:9-19 | timestamps in the form of section 5.6 of RFC 3339, with longer years as they come, tell whole seconds apart |
| `Idempotency.KeyInjective` | internal/scheduler/idempotency.go:9-19 | equal keys with colon-free fields come from equal normalised fields and the same second |
| `TokenBucket.WindowBound` | internal/ratelimit/limiter.go:145-180 | for any clock, the weight charged over any window is within burst plus rate times the clock's forward movement, at both rates |
| `TokenBucket.RateBound` | internal/ratelimit/limiter.go:133-180 | from a new bucket under a steady clock, what any window of length d charges is at most B + rps d and max(rpm, B) + rpm/60 d, B the largest burst or weight so far |
| `TokenBucket.RateBoundInSeconds` | internal/ratelimit/limiter.go:133-180 | the same in requests per second and per minute, for a window of any number of seconds |
| `TokenBucket.GrantedAfterSeconds` | internal/ratelimit/limiter.go:164-180 | what a bucket left alone for some seconds can pay for, exactly |
| `TokenBucket.ConfigureDefaults` | internal/ratelimit/limiter.go:49-72 | given values are kept; the default minute rate refills as fast as the second rate, the default burst is the largest whole number up to it but at least one |
| `TokenBucket.SecondDecidesIff` | internal/ratelimit/limiter.go:145-180 | in no run does the minute level refuse what the second level grants iff a minute allows no fewer requests than sixty seconds |
| `TokenBucket.DefaultMinuteRateNeverRefuses` | internal/ratelimit/limiter.go:57-59 | with the default minute rate only the second rate limits |
| `TokenBucket.AdmissionBoundedIff` | internal/ratelimit/limiter.go:133-188 | those bounds hold for what is admitted, charged or not, in every window of every run iff one token takes whole nanoseconds at each rate that can run short |
| `TokenBucket.UnpaidBreaksBound` | internal/ratelimit/limiter.go:145-188 | one unpaid admission is enough: repeated at its instant it exceeds every bound |
| `TokenBucket.AnyWeightGetsThrough` | internal/ratelimit/limiter.go:145-162 | a request admitted unpaid is admitted again any number of times at the same instant |
| `TokenBucket.GrantedAfterWait` | internal/ratelimit/limiter.go:145-180 | undisturbed, a refused request is granted after d iff d reaches the exact wait |
| `TokenBucket.DelayIsLeastWaitIff` | internal/ratelimit/limiter.go:145-188 | nothing shorter than the delay is enough, the delay itself is enough iff the exact wait is whole, and one nanosecond more always is |
| `TokenBucket.UnpaidIff` | internal/ratelimit/limiter.go:145-188 | a reservation is admitted without charge iff it is short by less than one nanosecond of refill at both rates |
| `TokenBucket.GridPays` | internal/ratelimit/limiter.go:145-188 | with token levels on the nanosecond grid nothing is admitted unpaid |
| `TokenBucket.WholePeriodsAlwaysPay` | internal/ratelimit/limiter.go:133-188 | if one token takes whole nanoseconds at each rate that can run short, no run ever admits unpaid |
| `TokenBucket.AlwaysPaysIff` | internal/ratelimit/limiter.go:49-72 | no run admits unpaid iff one token takes whole nanoseconds at each rate that can run short, the second rate alone with the default minute rate |
| `TokenBucket.DrainThenAsk` | internal/ratelimit/limiter.go:145-188 | otherwise two reservations admit unpaid at the second rate, unless the minute level is too short to keep up: drain the burst, then ask for one token just before it is due |
| `TokenBucket.FloodThenAsk` | internal/ratelimit/limiter.go:145-188 | at a lower minute rate three do so at the minute rate: grow the burst, empty both levels, ask for one token just before it is due |
| `Limiter.Limiter.Configure` | internal/ratelimit/limiter.go:49-72 | an error iff the name is blank or the rate not positive, changing nothing; else a full bucket with the budget that TokenBucket.ConfigureDefaults describes, other exchanges untouched |
| `Limiter.Limiter.Reserve` | internal/ratelimit/limiter.go:104-124 | unknown exchange is an error; otherwise the bucket is reserved once and delay plus jitter is the pause |
| `Limiter.Limiter.Wait` | internal/ratelimit/limiter.go:74-102 | an error iff the exchange is blank or unknown; otherwise the outcome and bucket of the waiting loop, other exchanges untouched |
| `Limiter.SecondTryIsLast` | internal/ratelimit/limiter.go:84-101 | after its sleep a lone waiter never waits again, and is charged iff the timer was late or the exact wait whole |
| `Limiter.LoneWait` | internal/ratelimit/limiter.go:74-102 | without positive jitter a lone Wait charges at most once, returns within two reservations, and exactly when it charges |
| `Limiter.WaitReturnsIff` | internal/ratelimit/limiter.go:84-101 | with any jitter, any other callers and any cancellations, Wait returns exactly at the first reservation free of delay and positive jitter, having paid for every charged one up to there |
| `Limiter.WaitAccounts` | internal/ratelimit/limiter.go:84-101 | however it ends, Wait has paid for exactly the charged reservations it made; a cancelled one ends at a cancelled sleep |
| `Limiter.AnyJitterIsDrawn` | internal/ratelimit/limiter.go:115-121 | every jitter from the smallest up to but not including the largest can occur |
| `Limiter.PositiveDrawsNeverReturn` | internal/ratelimit/limiter.go:115-121 | as long as every draw gives a positive jitter Wait does not return, whatever others do |
| `Limiter.NeverReturnsIff` | internal/ratelimit/limiter.go:115-121 | no caller ever returns under a budget iff its smallest jitter is positive |
| `Limiter.PaysOnceIff` | internal/ratelimit/limiter.go:74-124 | every lone Wait pays at most once under a budget iff no draw gives a positive jitter |
| `Limiter.JitterChargesEveryTurn` | internal/ratelimit/limiter.go:84-121 | otherwise a lone Wait with late timers pays at every one of any number of turns |
| `CircuitBreaker.Breaker.TryAllow` | internal/ratelimit/circuit_breaker.go:66-90 | refused iff cancelled or open before its deadline; a due circuit turns half-open; other keys untouched |
| `CircuitBreaker.Breaker.RecordSuccess` | internal/ratelimit/circuit_breaker.go:92-110 | the key's circuit takes the success step, other keys untouched |
| `CircuitBreaker.Breaker.RecordFailure` | internal/ratelimit/circuit_breaker.go:112-125 | the key's circuit takes the failure step, other keys untouched |
| `CircuitBreaker.OpenRefusesUntilCooldown` | internal/ratelimit/circuit_breaker.go:66-125 | after a failure opens a circuit at t, every Allow before t + cooldown is refused whatever else is recorded |
| `CircuitBreaker.OpensExactlyAtThreshold` | internal/ratelimit/circuit_breaker.go:92-125 | a closed circuit opens exactly on the threshold-th consecutive failure, for a cooldown from that instant |
| `CircuitBreaker.HalfOpenDecides` | internal/ratelimit/circuit_breaker.go:92-125 | half-open closes exactly on the last required success, and any failure before reopens it for a full cooldown |
| `CircuitBreaker.WholeLife` | internal/ratelimit/circuit_breaker.go:66-143 | along every trace from creation under a steady clock, the state a circuit is in began with the event that allows it and holds since: streak and last kind while closed, while open only refusals before a deadline that is exactly a cooldown from the last failure at the threshold, passes without a failure while half-open |
| `CircuitBreaker.Breaker.constructor` | internal/ratelimit/circuit_breaker.go:48-64 | settings below one become 5 failures, 30 seconds and 1 pass |
| `CircuitBreaker.SharedIff` | internal/ratelimit/limiter.go:18-24 | colon-free keys share a circuit iff they agree up to blanks and the case of the exchange |
| `Allocator.Allocate` | internal/ratelimit/allocator.go:34-82 | the answer is, exchange by exchange in name order, the grants to that exchange's ranked requests |
| `Allocator.GroupRequests` | internal/ratelimit/allocator.go:35-46 | each exchange has exactly its positive requests in input order |
| `Allocator.Serve` | internal/ratelimit/allocator.go:64-78 | serving in order until the capacity is used up |
| `Allocator.SortNames` | internal/ratelimit/allocator.go:48-52 | the names in strictly ascending order, none lost or added |
| `Allocator.RankedIsStableSort` | internal/ratelimit/allocator.go:60-63 | ranking is a permutation in class order that keeps input order within a class |
| `Allocator.GrantsExhaust` | internal/ratelimit/allocator.go:64-78 | the grants add up to min(capacity, total demand) |
| `Allocator.GrantsInOrder` | internal/ratelimit/allocator.go:64-78 | the k-th grant belongs to the k-th request, never exceeds its demand, and comes only when all ahead are full |
| `Allocator.GrantsArePrefix` | internal/ratelimit/allocator.go:64-78 | what stands behind in the order never changes what stands ahead |
| `Allocator.LowerClassesDoNotInterfere` | internal/ratelimit/allocator.go:60-78 | removing all requests below a class leaves the grants of the others as they are |
| `Allocator.UrgentFirst` | internal/ratelimit/allocator.go:60-100 | nothing goes to a class before every request of a more urgent class has all it asked for; unknown classes come last |
| `Allocator.GroupHolds` | internal/ratelimit/allocator.go:35-46 | a group holds exactly the positive requests that name its exchange, up to blanks and case |
| `Allocator.ExchangesAreIndependent` | internal/ratelimit/allocator.go:54-79 | within the whole answer an exchange gets what it would get alone |
| `Allocator.ExchangeTotals` | internal/ratelimit/allocator.go:34-82 | every exchange with positive capacity is granted min(capacity, its positive demand) in all, others nothing |
| `RetentionPolicy.Plan` | internal/retention/planner.go:13-46 | the loop skips disabled policies, fails on the first invalid one and plans the rest in order |
| `RetentionPolicy.PlannedCutoffsAreSafe` | internal/retention/planner.go:13-46 | every planned cutoff is at least the table's and the policy's minimum days in the past |
| `RetentionPolicy.ValidateIff` | internal/retention/specs.go:151-193 | a policy is accepted iff its table and columns are known, its days reach both minimums, and its sizes and timeout are positive |
| `RetentionPolicy.TableColumns` | internal/retention/specs.go:17-136 | the tables by the column that dates their rows |
| `RetentionPolicy.IntervalTables` | internal/retention/specs.go:17-136 | which tables hold rows of several intervals |
| `RetentionPolicy.PartitionedTables` | internal/retention/specs.go:17-136 | which tables have their partitions dropped unless the policy says otherwise |
| `RetentionPolicy.HistoryIsKept` | internal/retention/specs.go:17-136 | no accepted policy reaches rows younger than its table keeps: a year, 90, 30, 14, 7 or 1 days |
| `Rollup.FoldUnion` | internal/retention/rollup.go:117-132 | aggregating two disjoint groups together is merging their aggregates |
| `Rollup.FoldMeaning` | internal/retention/rollup.go:117-132 | open of the earliest row, close of the latest, highest high, lowest low, latest close time |
| `Rollup.FoldSums` | internal/retention/rollup.go:117-132 | each summed column is null iff it is null in every row, else the total of the other values, in any order of the rows |
| `Rollup.ChainEqualsDirect` | internal/retention/rollup.go:104-162 | two rollup stages on fresh targets, each with its own cutoff, equal grouping the carried rows straight into the coarse buckets |
| `Rollup.ChainPreservesMeaning` | internal/retention/rollup.go:21-27 | every chain of the interval table, for any start and cutoff, equals grouping the original rows directly |
| `Rollup.ChainOnOneTable` | internal/retention/rollup.go:104-162 | the same for the statements run one after the other on the one table, when it holds no row of the target intervals; all other rows stay |
| `Rollup.SpecsFollowNames` | internal/retention/rollup.go:21-27 | exactly the intervals but the longest roll up, each into the next longer one, with buckets as long as that name says |
| `Rollup.RollupCoversIntervals` | internal/retention/rollup.go:104-162 | a rollup writes exactly the aligned candles with an eligible row of their series within the time their name spells, each from exactly those rows, and touches nothing else |
| `Rollup.UnsplitCandlesSurvive` | internal/retention/rollup.go:104-162 | a later rollup leaves a candle as it is when no eligible row of it is left |
| `Rollup.SplitBucketLosesRows` | internal/retention/rollup.go:150-161 | for every rollup of the table and any two rows of one candle, deleting the early one alone makes the next rollup drop its high |
| `RetentionEngine.GroupRows` | internal/retention/rollup.go:117-150 | grouping row by row in any order gives the rollup rows, and fails iff one target candle mixes markets |
| `RetentionEngine.Engine.DeleteChunk` | internal/retention/store.go:67-85 | removes the oldest eligible rows up to the chunk size and nothing else |
| `RetentionEngine.Engine.DeleteLoop` | internal/retention/engine.go:153-172 | terminates and removes exactly min(eligible, cap) rows, none newer than a surviving eligible row |
| `RetentionEngine.OldestChains` | internal/retention/engine.go:153-172 | two chunks in a row are one bigger oldest-first chunk |
| `RetentionEngine.Engine.RollupBeforeDelete` | internal/retention/rollup.go:29-84 | exactly when it fails; rows read and written are the eligible rows and their candles; errors and dry runs change nothing |
| `RetentionEngine.Engine.RunPlanItem` | internal/retention/engine.go:67-179 | exactly when a run fails; failures and dry runs change nothing; else rollup first, then partition drops or the delete loop with its counts |
| `RetentionEngine.OptionLowersCap` | internal/retention/engine.go:204-213 | the cap of a run is the smaller of the policy's and a positive option |
| `RetentionEngine.Engine.DropAll` | internal/retention/engine.go:126-150 | dropping the listed partitions removes their ranges and their names |
| `RetentionEngine.DropsExactlyRanges` | internal/retention/store.go:131-137 | a row survives the drops unchanged iff it lies in none of the ranges |
| `RetentionEngine.DropsExactlyNames` | internal/retention/engine.go:126-150 | the listing loses exactly the dropped partitions |
| `RetentionEngine.RemovedRowsAreOld` | internal/retention/engine.go:117-172 | every row a planned run removes, by chunk or partition, is older than both safety minimums |
| `RetentionEngine.RemovedRowsWereCounted` | internal/retention/engine.go:117-172 | a row the delete loop removes after a rollup was counted in exactly one target candle iff it was a closed row of the rolled up interval; with an interval filter no other rows are removed |
| `RetentionRuns.KeepsOwnCandlesIff` | internal/retention/sql.go:20-51 | whatever rows the loop picks, it keeps all candles the rollup of the same run wrote iff the policy filters on the interval or the cap is reached before the first of them |
| `RetentionRuns.OwnCandlesAreSafeIff` | internal/retention/sql.go:43-51 | over all tables, a run keeps its own candles iff the policy filters on the interval |
| `RetentionRuns.DropsKeepOwnCandlesIff` | internal/retention/engine.go:126-150 | dropping partitions keeps a set of candles iff no dropped range holds the start of one |
| `RetentionRuns.CanSplitIff` | internal/retention/engine.go:153-172 | the capped, oldest-first loop can delete one row of a candle and keep another iff two of its rows are at risk, by counts taken before the run |
| `RetentionRuns.UncappedRunsAreSafeIff` | internal/retention/engine.go:153-172 | runs the cap does not stop never split a candle, whatever the table, iff the cutoff is on a candle boundary |
| `RetentionRuns.EveryCapCanSplit` | internal/retention/engine.go:204-213 | for every cap and cutoff there is a table of one row more than the cap that the run can split |
| `RetentionRuns.ValuesAreKeptIff` | internal/retention/engine.go:117-172 | runs the cap does not stop keep the value of every candle they wrote for good, through all later runs of the policy with any cutoffs and caps and all writes of newer rows, iff the cutoff is on a candle boundary |
| `RetentionRuns.ClearedCandlesAreFinal` | internal/retention/rollup.go:104-162 | once its source interval is cleared past its end a candle never changes again, whatever runs and writes of newer rows follow |
| `RetentionRuns.SafeRunKeepsCandles` | internal/retention/rollup.go:104-162 | table by table: after a run without rows at risk the next rollup, with any cutoff, leaves the candles of the deleted rows as they were, unless the run deleted the candles themselves |
| `RetentionRuns.SplitRunLosesRows` | internal/retention/engine.go:117-172 | for every rollup of the table, a run that separates two rows of a candle by its cutoff or a cap of one loses the deleted high in the next rollup |
| `Partitions.EligiblePartitions` | internal/retention/partitions.go:45-61 | the loop keeps exactly the droppable names, in order |
| `Partitions.NamesParse` | internal/retention/partitions.go:16-43 | every month and week name of every four-digit year parses back to its own range |
| `Partitions.MonthsAbut` | internal/retention/partitions.go:22-30 | a monthly range has the month's length and ends where the next begins, across years too |
| `Partitions.WeeksAbut` | internal/retention/partitions.go:32-40 | a week is seven days, and the next one, also across years, starts where it ends |
| `Partitions.BoundaryBelongsToLater` | internal/retention/partitions.go:22-40 | an instant on the boundary of two ranges belongs to the later one |
| `Partitions.MonthlyReads` | internal/retention/partitions.go:11-14 | what ends in a year and a month matches, with those numbers |
| `Partitions.WeeklyReads` | internal/retention/partitions.go:11-14 | what ends in a year and a week matches, in either case |
| `Partitions.OnlyThoseMatch` | internal/retention/partitions.go:11-14 | only names that end in a year and a month or a week match the patterns |
| `Partitions.ParentFilters` | internal/retention/partitions.go:16-20 | names of other tables have no range; a table's own have theirs whatever the case |
| `Partitions.DroppableIff` | internal/retention/partitions.go:45-61 | a partition may be dropped iff its name has a range that lies before the cutoff as a whole |
| `Partitions.RangesAreNonEmpty` | internal/retention/partitions.go:16-43 | every parsed range ends after it starts |
| `Partitions.DropsOnlyOldRanges` | internal/retention/store.go:113-123 | a name is selected iff its range ends by the cutoff, so every instant in it lies before the cutoff |
| `Calendar.YearsAbut` | internal/retention/partitions.go:63-71 | the closed day count grows by exactly 365 or 366 days each year |
| `Calendar.MonthsFillYear` | internal/retention/partitions.go:22-30 | the twelve months add up to the year |
| `Calendar.WeeksAreIso` | internal/retention/partitions.go:63-71 | weeks start on Monday, week 1 contains 4 January, weeks abut (section 3.2.2 of ISO 8601:2004) |
| `Calendar.YearsHoldWholeWeeks` | internal/retention/partitions.go:63-71 | week 1 of the next year starts exactly 52 or 53 weeks later, 53 exactly in long years |
| `Calendar.Week53Iff` | internal/retention/partitions.go:32-40 | week 53 coincides with week 1 of the next year iff the year is not long |
| `Quality.FilterItems` | internal/hardening/validation.go:59-73 | the loop keeps and reports exactly what the item's checks decide |
| `Quality.FilterKinds` | internal/hardening/validation.go:56-254 | the loops in order fill one list of kept items each and a shared list of issues |
| `Quality.FilterNormalizedResult` | internal/hardening/validation.go:43-255 | defaults applied, each kind's kept items and all issues in the filter's order |
| `Quality.FilterPartitions` | internal/hardening/validation.go:56-254 | each input becomes exactly one kept item or one issue, at the next position of that list |
| `Quality.KeptPasses` | internal/normalizers/validation.go:70-386 | everything kept passes the filter and the repository's validator again |
| `Quality.KeptIff` | internal/hardening/validation.go:270-308 | an item is kept iff its repository's validator accepts it, it matches the job's symbol and period, is not too far ahead, and its funding is within the limits |
| `Quality.ValidByRule` | internal/normalizers/validation.go:12-386 | the validators, kind by kind, demand the same as the rules, rule by rule: names, time, no negative amount, funding, period |
| `Quality.PeriodForms` | internal/normalizers/validation.go:10-10 | a period is digits with a unit behind or with a word in front |
| `Quality.DefaultLimits` | internal/hardening/validation.go:21-27 | two minutes ahead and five percent of funding unless given |
| `Quality.FilterTwice` | internal/hardening/validation.go:43-255 | filtering what was kept keeps all of it and raises no issue |
| `Writer.DeriveOpenInterest` | internal/collectors/core/writer.go:167-182 | one open interest item for each snapshot that carries one, in order |
| `Writer.DeriveFunding` | internal/collectors/core/writer.go:184-200 | one funding item for each snapshot that carries a rate, in order |
| `Writer.DerivedOpenInterestAt` | internal/collectors/core/writer.go:167-182 | each snapshot yields the next open interest, with its own figures, iff it carries one |
| `Writer.DerivedFundingAt` | internal/collectors/core/writer.go:184-200 | each snapshot yields the next funding, with its own figures, iff it carries a rate |
| `Writer.DerivedCvdAt` | internal/repositories/advanced.go:171-210 | each flow yields the next row iff it carries a delta or both volumes of one currency |
| `Writer.DerivedSnapshotsAreValid` | internal/collectors/core/writer.go:167-200 | derived open interest and funding of kept snapshots pass their repositories' validators |
| `Writer.DerivedCvdIsValid` | internal/repositories/advanced.go:171-210 | the CVD rows derived from kept taker flows pass their validator |
| `Writer.DeriveLiquidationAggregates` | internal/collectors/core/writer.go:202-258 | the result lists the aggregates of all buckets, each once |
| `Writer.AggregatesSummarise` | internal/collectors/core/writer.go:207-250 | a bucket has an aggregate iff it has events, and it says their counts, sums and largest, described by the first of them |
| `Writer.AggregateBalances` | internal/collectors/core/writer.go:225-249 | in every aggregate the two sides add up to the events of its bucket, in number and in value |
| `Writer.BucketHolds` | internal/collectors/core/writer.go:212-212 | an event belongs to the bucket that starts on a boundary and holds its time |
| `Writer.BucketMatchesNameIff` | internal/collectors/core/writer.go:270-277 | a bucket is as long as its period says iff the period is one minute or "5m" |
| `Writer.AggregatePeriod` | internal/collectors/core/writer.go:260-268 | the period is the job's, else that of its tier, and then the buckets match it |
| `Writer.EventWorth` | internal/collectors/core/writer.go:279-290 | the value of an event and its side |
| `Writer.LargestIsMaximum` | internal/collectors/core/writer.go:245-249 | the largest liquidation is attained by an event and exceeded by none |
| `Writer.AggregatesAreValidIff` | internal/normalizers/validation.go:289-316 | the aggregates of valid events are all accepted iff the period is well formed and no event lies in the zero-time bucket |
| `Writer.SecondValidationFailsIff` | internal/collectors/core/writer.go:33-145 | all calls of a write pass the repositories' validation iff there are no liquidation aggregates to reject |
| `Writer.SendAll` | internal/collectors/core/writer.go:41-144 | calls go out in order until the first rejected one |
| `Writer.Write` | internal/collectors/core/writer.go:33-145 | filters, then makes the calls of Writer.Calls one statement after the other; returns without an error iff no derived aggregate is rejected |
| `Writer.KeptIsSent` | internal/collectors/core/writer.go:41-142 | what a kind keeps goes, whole and once, to its configured repository, open interest as history iff the job collects history |
| `Writer.DerivedIsSent` | internal/collectors/core/writer.go:52-130 | what is derived goes to its repository too, after what it is derived from |
| `Writer.DerivedFor` | internal/collectors/core/writer.go:64-129 | snapshots yield open interest and funding only for jobs of that data type |
| `Writer.CallHasSource` | internal/collectors/core/writer.go:41-142 | every call is that of one kind's kept items or one derived list |
| `Writer.OrderIsComplete` | internal/collectors/core/writer.go:41-142 | every kind has exactly one place among the calls, and what is derived from it a later one |
| `Writer.CallFitsRepo` | internal/collectors/core/writer.go:41-142 | no repository is handed items of a kind it does not store |
| `Cvd.CvdStore.PreviousCVD` | internal/repositories/advanced.go:667-690 | the value of the latest earlier row of the series, zero when there is none |
| `Cvd.PreviousIs` | internal/repositories/advanced.go:667-690 | the value continued from is that of the latest earlier row, zero if it is null or there is none |
| `Cvd.CvdStore.UpsertCVDFromTakerFlows` | internal/repositories/advanced.go:171-210 | each flow with a change writes its predecessor's value plus the change; the count is the flows written |
| `Cvd.ChangesAreCounted` | internal/repositories/advanced.go:171-210 | the count returned is the number of flows with a change |
| `Cvd.ConsistentIffExtends` | internal/repositories/advanced.go:171-210 | values are running sums iff every row extends the one before it |
| `Cvd.BatchKeepsConsistent` | internal/repositories/advanced.go:171-210 | a sorted batch covering the stored rows from its start on leaves every value the running sum, revisions included |
| `Cvd.NetVolume` | internal/repositories/advanced.go:171-210 | on a fresh series flows in time order leave what was bought less what was sold, in the quote currency where it is known |
| `Cvd.ReportedDeltaWins` | internal/repositories/advanced.go:692-707 | a reported delta goes before the volumes, quote before base; without any of them the flow is skipped |
| `Cvd.ReplayChangesNothing` | internal/repositories/advanced.go:171-210 | replaying such a batch changes no row |
| `Cvd.OneFlowIff` | internal/repositories/advanced.go:171-210 | a single flow keeps consistency iff it is the newest row or leaves the running value at its instant as it was |
| `Resp.WriteRESP` | internal/realtime/redis.go:116-130 | the buffer is the array encoding of the arguments as bulk strings |
| `Resp.Reader.NextLine` | internal/realtime/redis.go:208-214 | the next line without its ending, or end of input |
| `Resp.Reader.NextNumber` | internal/realtime/redis.go:155-173 | the next line as a number, or the error it is not one |
| `Resp.Reader.ReadRESP` | internal/realtime/redis.go:139-206 | terminates with the decoder's reply and exactly the unread rest, or its error |
| `Resp.Reader.ReadItems` | internal/realtime/redis.go:182-202 | as many replies in a row as the header says, stopping at the first error |
| `Resp.ParseFormat` | internal/realtime/redis.go:118-125 | printed numbers read back and contain no line ending |
| `Resp.ParseIntIff` | internal/realtime/redis.go:155-173 | exactly what reads as a number: its printed form, with zeros or a plus in front, if it is a Go int |
| `Resp.FrameReads` | internal/realtime/redis.go:139-206 | whatever a server sends, however nested, is read as what it means: the reply and exactly the suffix, or the first error line in it |
| `Resp.ErrorAnywhereFails` | internal/realtime/redis.go:149-154 | a reply fails iff an error line is anywhere in it, at any depth |
| `Resp.MalformedFails` | internal/realtime/redis.go:203-205 | another first byte or a header that is no number is an error |
| `Resp.RoundTrip` | internal/realtime/redis.go:139-206 | every reply, however nested, decodes from its encoding and leaves any suffix |
| `Resp.RoundTripAll` | internal/realtime/redis.go:74-114 | replies printed one after the other are read back in order |
| `Resp.CommandRoundTrip` | internal/realtime/redis.go:116-206 | decoding an encoded command yields exactly its byte strings, CR, LF and '$' included, and leaves the suffix |
| `Resp.DecodeExtends` | internal/realtime/redis.go:139-206 | more bytes never change a decoded reply or an error other than end of input |
| `Resp.TruncatedReplyIsEof` | internal/realtime/redis.go:139-206 | whatever a server sends, cut off anywhere, is end of input or the error in it, never another value or error |
| `Snapshot.Worker.Observe` | internal/realtime/snapshot.go:34-49 | the event, stamped if it has no time, replaces its key's event; an event without a key changes nothing |
| `Snapshot.KeyedIff` | internal/realtime/keys.go:45-62 | which events have a key, and its text |
| `Snapshot.ReplacesIff` | internal/realtime/keys.go:33-74 | two events replace each other iff they are of one kind and about the same symbol, up to case and blanks |
| `Snapshot.Worker.TakeBatch` | internal/realtime/snapshot.go:56-62 | empties the buffer and lists its events, each once |
| `Snapshot.Worker.PutBackBatch` | internal/realtime/snapshot.go:69-77 | the batch goes back over whatever the buffer holds by then |
| `Snapshot.Worker.Flush` | internal/realtime/snapshot.go:51-81 | the buffer and count after success or failure, with any observations made while the sink ran |
| `Snapshot.ObservedKeyIsKept` | internal/realtime/snapshot.go:34-81 | in every interleaving of observations and concurrent flushes, an observed key stays buffered or in flight until a flush begun after the observation delivers it |
| `Snapshot.FailedFlushRestores` | internal/realtime/snapshot.go:51-79 | with no observation or other failure between, a failed flush restores the buffer exactly |
| `Snapshot.PutAllIsUpdate` | internal/realtime/snapshot.go:71-76 | putting a batch back gives the same buffer in every order |
| `Snapshot.AlwaysNewestIff` | internal/realtime/snapshot.go:34-81 | with any number of flushes in flight, the buffer holds the last event of each of its keys throughout a run iff of every batch that fails, the last event observed of each of its keys between take and failure, if there is one, is the very event in the batch |
| `Snapshot.OlderEventComesBack` | internal/realtime/snapshot.go:69-77 | from any state, taking a batch, observing another event of one of its keys and failing brings the older event back |

## Left out

- Exchange adapters, request building, HTTP, REST handlers, metrics, configuration, migrations and service wiring: no state or arithmetic of their own.
- Real database isolation and failures: each transaction is one atomic step and database errors do not occur, except the rollup INSERT's conflict and a refused report in `Worker.RunOnce`.
- The job rows' error type, metadata, payload and updated_at columns, and the statuses `failed` and `cancelled` where no worker writes them.
- Clocks: one clock for workers and database; recovery may use any cutoff at least the timeout before it.
- Worker backoff, its jitter, error classification, and the executor: the next run and recoverability are arbitrary inputs.
- Float rounding and 64-bit overflow: tokens and amounts are reals, counters mathematical integers; NaN and infinities do not occur.
- JobTable.JobStore.RecoverInterrupted: the second UPDATE, on data_collection_runs, and the default of a missing timeout.
- Planner.RunAt: metadata JSON, and the insert after the loop.  Planner.PlanIsExact and the lemmas on stored rows speak about the plan without caches, which Planner.CachesDoNotShowIff ties to this one.
- Planner stores: deterministic during one run; a store that changes its answer between two policies is not modelled.
- Limiter.Reserve: weights are at least one, as Wait passes them.
- Limiter.Wait: driven by a finite list of turns; `Waiting` stands for a loop still running.
- CircuitBreaker.OpensExactlyAtThreshold: on one circuit; keys with the same normalised text share it, as in the code.
- Allocator.Allocate: sort.Strings and sort.SliceStable are modelled by their results, not their algorithms; names compare by code unit.
- RetentionPolicy.Plan: starts from policies already in run order; the in-place sort before the loop is not modelled.
- RetentionEngine.Engine.RunPlanItem: the kline table only; audit rows, timeouts and partial failure of drops are left out, and the schema check of the partition listing too.
- Rollup.ChainPreservesMeaning: on fresh stage tables, as Rollup.ChainEqualsDirect is; Rollup.ChainOnOneTable carries it over to the one table, and across runs the RetentionRuns module gives the condition.
- RetentionRuns.ValuesAreKeptIff: runs of one policy; a policy on the target interval, or a collector that writes the same candle, can still change it.
- Partitions.NamesParse: parents that start with a blank are left out, as a trimmed name cannot carry them.
- Quality.FilterNormalizedResult: issue details and their SHA-1 keys, and the replacement of a zero clock by the current time.
- Writer.Write: the order of derived aggregates is arbitrary, as map iteration is; a call that derives the volume delta from flows without a change does nothing and is not listed; repository SQL, the minimum liquidation size and the issue store are left out.
- Cvd.CvdStore.UpsertCVDFromTakerFlows: the change percentage and volume columns, and a validation error in the middle of a batch.
- Resp.RoundTrip: a reply carries its kind, where the code's reply struct does not tell an empty string from the integer zero or an empty array.
- Resp.Reader.ReadRESP: allocation of a very large announced size, and integer overflow of size + 2.
- Snapshot.Worker.Flush: a worker without a sink, and the bucket time handed to the sink.
- Text: trimming and case folding on ASCII only; instants before year 1 do not occur.
- TTL memory store, Redis fallback, cross-exchange analytics and realtime publishing.
