/** Backfill planning (internal/scheduler/backfill.go). */
module Backfill {
  import opened Wrappers
  import opened Text
  import Modular
  import opened Idempotency

  datatype Request = Request(
    exchange: string,
    dataType: string,
    tier: string,
    symbolId: int,
    sourceSymbol: string,
    period: string,
    start: nat,
    end: nat,
    intervalSeconds: int,
    priority: int,
    maxRetry: int,
    parentGapId: int,
    maxJobs: int,
    realtimeLag: int,
    realtimeLagPauseAfter: int)

  datatype Job = Job(
    exchange: string,
    dataType: string,
    tier: string,
    symbolId: int,
    sourceSymbol: string,
    period: string,
    key: string,
    priority: int,
    scheduledAt: nat,
    maxRetry: int,
    parentGapId: int,
    windowStart: nat,
    windowEnd: nat)

  function Or(value: int, fallback: int): int { if value <= 0 then fallback else value }

  function MaxJobs(r: Request): int { Or(r.maxJobs, 1000) }

  function StepOf(r: Request): int { r.intervalSeconds * NANO }

  function JobAt(r: Request, bucket: nat): Job
    requires r.intervalSeconds > 0
  {
    Job(r.exchange, r.dataType, r.tier, r.symbolId, r.sourceSymbol, r.period,
        IdempotencyKey(r.exchange, r.dataType, r.symbolId, r.sourceSymbol, r.period, bucket),
        Or(r.priority, 1000), bucket, Or(r.maxRetry, 3), r.parentGapId, bucket, bucket + StepOf(r))
  }

  predicate Aligned(at: int, step: int)
    requires step > 0
  {
    at % step == 0
  }

  /** An interval-aligned instant of [start, end). */
  predicate Wanted(r: Request, at: int)
    requires r.intervalSeconds > 0
  {
    Aligned(at, StepOf(r)) && r.start <= at < r.end
  }

  /** The jobs are exactly those of the first MaxJobs wanted instants, in order. */
  ghost predicate FirstInstants(r: Request, jobs: seq<Job>)
    requires r.intervalSeconds > 0
  {
    && |jobs| <= MaxJobs(r)
    && (forall i :: 0 <= i < |jobs| ==> Wanted(r, jobs[i].scheduledAt) && jobs[i] == JobAt(r, jobs[i].scheduledAt))
    && (forall i :: 0 <= i < |jobs| - 1 ==> jobs[i + 1].windowStart == jobs[i].windowEnd)
    && (forall at :: Wanted(r, at) ==>
          || (exists i :: 0 <= i < |jobs| && jobs[i].scheduledAt == at)
          || (|jobs| == MaxJobs(r) && forall i :: 0 <= i < |jobs| ==> jobs[i].scheduledAt < at))
  }

  lemma AlignedGap(a: int, b: int, step: int)
    requires step > 0 && Aligned(a, step) && Aligned(b, step) && a < b
    ensures a + step <= b
  {
    Modular.MultiplesApart(a, b, step);
  }

  lemma AlignedNext(a: int, step: int)
    requires step > 0 && Aligned(a, step)
    ensures Aligned(a + step, step)
  {
    Modular.NextMultiple(a, step);
  }

  lemma TruncateAligns(at: int, step: int)
    requires step > 0
    ensures Aligned(at - at % step, step) && at - at % step <= at < at - at % step + step
  {
    Modular.RoundDown(at, step);
  }

  /** The loop has collected every wanted instant before `bucket`. */
  ghost predicate Collected(r: Request, jobs: seq<Job>, bucket: int)
    requires r.intervalSeconds > 0
  {
    && Aligned(bucket, StepOf(r)) && r.start < bucket + StepOf(r)
    && |jobs| <= MaxJobs(r)
    && (forall i :: 0 <= i < |jobs| ==>
          Wanted(r, jobs[i].scheduledAt) && jobs[i] == JobAt(r, jobs[i].scheduledAt) && jobs[i].scheduledAt < bucket)
    && (forall i :: 0 <= i < |jobs| - 1 ==> jobs[i + 1].windowStart == jobs[i].windowEnd)
    && (jobs != [] ==> jobs[|jobs| - 1].windowEnd == bucket)
    && (forall at :: Wanted(r, at) && at < bucket ==> exists i :: 0 <= i < |jobs| && jobs[i].scheduledAt == at)
  }

  lemma SkipEarly(r: Request, bucket: int)
    requires r.intervalSeconds > 0 && Collected(r, [], bucket) && bucket < r.start
    ensures Collected(r, [], bucket + StepOf(r))
  {
    hide JobAt, Aligned;
    AlignedNext(bucket, StepOf(r));
    forall at | Wanted(r, at) ensures bucket + StepOf(r) <= at { AlignedGap(bucket, at, StepOf(r)); }
  }

  lemma CollectNext(r: Request, jobs: seq<Job>, bucket: nat)
    requires r.intervalSeconds > 0 && Collected(r, jobs, bucket) && r.start <= bucket < r.end && |jobs| < MaxJobs(r)
    ensures Collected(r, jobs + [JobAt(r, bucket)], bucket + StepOf(r))
  {
    hide IdempotencyKey, Aligned;
    var step, jobs' := StepOf(r), jobs + [JobAt(r, bucket)];
    AlignedNext(bucket, step);
    assert forall i :: 0 <= i < |jobs| ==> jobs'[i] == jobs[i];
    forall at | Wanted(r, at) && at < bucket + step ensures exists i :: 0 <= i < |jobs'| && jobs'[i].scheduledAt == at {
      if bucket < at { AlignedGap(bucket, at, step); }
      if at < bucket {
        var i :| 0 <= i < |jobs| && jobs[i].scheduledAt == at;
        assert jobs'[i].scheduledAt == at;
      } else {
        assert jobs'[|jobs|].scheduledAt == at;
      }
    }
  }

  lemma CollectedAll(r: Request, jobs: seq<Job>, bucket: int)
    requires r.intervalSeconds > 0 && Collected(r, jobs, bucket)
    requires r.end <= bucket || |jobs| >= MaxJobs(r)
    ensures FirstInstants(r, jobs)
  {
  }

  /** Nothing while realtime collection lags; the zero time is instant 0. */
  method PlanBackfillJobs(req: Request) returns (r: Result<seq<Job>, string>)
    ensures 0 < req.realtimeLagPauseAfter < req.realtimeLag ==> r == Ok([])
    ensures !(0 < req.realtimeLagPauseAfter < req.realtimeLag) ==>
              (r.Ok? <==> 1 <= req.intervalSeconds && 1 <= req.start < req.end && 1 <= req.symbolId && req.sourceSymbol != "")
    ensures r.Ok? && !(0 < req.realtimeLagPauseAfter < req.realtimeLag) ==> req.intervalSeconds > 0 && FirstInstants(req, r.value)
  {
    if req.realtimeLagPauseAfter > 0 && req.realtimeLag > req.realtimeLagPauseAfter {
      return Ok([]);
    }
    if req.intervalSeconds <= 0 {
      return Err("interval_seconds must be greater than 0");
    }
    if req.start == 0 || req.end == 0 || req.start >= req.end {
      return Err("valid backfill start/end are required");
    }
    if req.symbolId <= 0 || req.sourceSymbol == "" {
      return Err("symbol_id and source_symbol are required");
    }
    hide IdempotencyKey, FirstInstants;
    var jobs: seq<Job> := [];
    var bucket: nat := ScheduledBucket(req.start, req.intervalSeconds);
    TruncateAligns(req.start, StepOf(req));
    while bucket < req.end
      invariant Collected(req, jobs, bucket)
      decreases req.end - bucket
    {
      if bucket < req.start {
        SkipEarly(req, bucket);
        bucket := bucket + StepOf(req);
        continue;
      }
      if |jobs| >= MaxJobs(req) {
        break;
      }
      CollectNext(req, jobs, bucket);
      jobs := jobs + [JobAt(req, bucket)];
      bucket := bucket + StepOf(req);
    }
    CollectedAll(req, jobs, bucket);
    return Ok(jobs);
  }

  /** What a job takes from its request, its window, and the defaults of the limits. */
  lemma JobCarriesRequest(r: Request, jobs: seq<Job>, i: nat)
    requires r.intervalSeconds > 0 && FirstInstants(r, jobs) && i < |jobs|
    ensures var j := jobs[i];
            && j.exchange == r.exchange && j.dataType == r.dataType && j.tier == r.tier && j.symbolId == r.symbolId
            && j.sourceSymbol == r.sourceSymbol && j.period == r.period && j.parentGapId == r.parentGapId
            && r.start <= j.windowStart == j.scheduledAt < r.end && j.windowEnd - j.windowStart == r.intervalSeconds * 1_000_000_000
            && (r.priority >= 1 ==> j.priority == r.priority) && (r.priority <= 0 ==> j.priority == 1000)
            && (r.maxRetry >= 1 ==> j.maxRetry == r.maxRetry) && (r.maxRetry <= 0 ==> j.maxRetry == 3)
            && (r.maxJobs >= 1 ==> |jobs| <= r.maxJobs) && (r.maxJobs <= 0 ==> |jobs| <= 1000)
  {
    hide IdempotencyKey;
  }

  /** The cap cuts off nothing it need not: with room left every aligned instant of the gap has its job. */
  lemma GapIsCovered(r: Request, jobs: seq<Job>, at: int)
    requires r.intervalSeconds > 0 && FirstInstants(r, jobs) && |jobs| < if r.maxJobs >= 1 then r.maxJobs else 1000
    requires r.start <= at < r.end && at % (r.intervalSeconds * 1_000_000_000) == 0
    ensures exists i :: 0 <= i < |jobs| && jobs[i].scheduledAt == at
  {
    hide IdempotencyKey;
    assert Wanted(r, at);
  }

  // ------------------------------------------------------------- keys of the plan

  /** Jobs are strictly increasing in time. */
  lemma {:induction false} Increasing(r: Request, jobs: seq<Job>, i: nat, j: nat)
    requires r.intervalSeconds > 0 && FirstInstants(r, jobs) && i < j < |jobs|
    ensures jobs[i].scheduledAt + StepOf(r) <= jobs[j].scheduledAt
    decreases j - i
  {
    hide IdempotencyKey, Aligned;
    if i + 1 < j { Increasing(r, jobs, i, j - 1); }
    assert jobs[j - 1 + 1].windowStart == jobs[j - 1].windowEnd;
  }

  /** Colon-free fields give pairwise distinct idempotency keys. */
  lemma KeysDistinct(r: Request, jobs: seq<Job>, i: nat, j: nat)
    requires r.intervalSeconds > 0 && FirstInstants(r, jobs) && i < j < |jobs|
    requires ColonFree(Lower(Trim(r.exchange))) && ColonFree(Trim(r.dataType)) && ColonFree(Trim(r.sourceSymbol)) && ColonFree(Trim(r.period))
    ensures jobs[i].key != jobs[j].key
  {
    hide IdempotencyKey, Aligned, ColonFree;
    Increasing(r, jobs, i, j);
    var a, b := jobs[i].scheduledAt, jobs[j].scheduledAt;
    assert b >= a + NANO;
    if jobs[i].key == jobs[j].key {
      KeyInjective(r.exchange, r.dataType, r.symbolId, r.sourceSymbol, r.period, a, r.exchange, r.dataType, r.symbolId, r.sourceSymbol, r.period, b);
    }
  }

  /** The key of a backfill job is the key the planner gives to any instant of its window. */
  lemma KeyAgreesWithPlanner(r: Request, jobs: seq<Job>, i: nat, now: nat)
    requires r.intervalSeconds > 0 && FirstInstants(r, jobs) && i < |jobs|
    requires jobs[i].windowStart <= now < jobs[i].windowEnd
    ensures ScheduledBucket(now, r.intervalSeconds) == jobs[i].scheduledAt
    ensures jobs[i].key == IdempotencyKey(r.exchange, r.dataType, r.symbolId, r.sourceSymbol, r.period, ScheduledBucket(now, r.intervalSeconds))
  {
    hide IdempotencyKey, Aligned;
    var step, bucket := StepOf(r), now - now % StepOf(r);
    TruncateAligns(now, step);
    if bucket < jobs[i].scheduledAt { AlignedGap(bucket, jobs[i].scheduledAt, step); }
    if jobs[i].scheduledAt < bucket { AlignedGap(jobs[i].scheduledAt, bucket, step); }
  }
}
