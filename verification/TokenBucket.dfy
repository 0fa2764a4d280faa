/**
  The two-rate token bucket of internal/ratelimit/limiter.go.

  Tokens and rates are exact reals; instants and delays are whole nanoseconds, as
  time.Duration is, so the truncation in delayFor is part of the model.
 */
module TokenBucket {
  import opened Numbers
  import Modular

  const NANOS: real := 1_000_000_000.0

  datatype Budget = Budget(perSecond: real, perMinute: real, burst: int, jitterMin: int, jitterMax: int)

  datatype Bucket = Bucket(budget: Budget, second: real, minute: real, lastRefill: int)

  /** One call of bucket.reserve. */
  datatype Op = Op(now: int, weight: int)

  // ----------------------------------------------------------------------- arithmetic
  //
  // Products and quotients are named, so that a proof can hide their bodies and use
  // only the laws below.

  function Times(x: real, y: real): real { x * y }

  function Over(x: real, y: real): real
    requires y > 0.0
  {
    x / y
  }

  lemma TimesAdd(x: real, y: real, r: real)
    ensures Times(x + y, r) == Times(x, r) + Times(y, r)
    ensures Times(x - y, r) == Times(x, r) - Times(y, r)
  {
  }

  lemma TimesSign(x: real, r: real)
    requires r > 0.0
    ensures x > 0.0 <==> Times(x, r) > 0.0
    ensures x == 0.0 <==> Times(x, r) == 0.0
  {
  }

  lemma OverTimes(x: real, r: real)
    requires r > 0.0
    ensures Times(Over(x, r), r) == x
  {
  }

  lemma OverOrder(x: real, r: real, d: real)
    requires r > 0.0
    ensures Over(x, r) <= d <==> x <= Times(d, r)
    ensures Over(x, r) == d <==> x == Times(d, r)
  {
  }

  predicate IsWhole(x: real) { x == x.Floor as real }

  lemma WholeInt(i: int)
    ensures IsWhole(i as real)
  {
  }

  lemma WholeSum(x: real, y: real)
    requires IsWhole(x) && IsWhole(y)
    ensures IsWhole(x + y) && IsWhole(x - y)
  {
    WholeSumOfInts(x.Floor, y.Floor);
  }

  lemma WholeSumOfInts(i: int, j: int)
    ensures IsWhole(i as real + j as real) && IsWhole(i as real - j as real)
  {
    hide IsWhole;
    AddReals(i, j);
    WholeInt(i + j);
    WholeInt(i - j);
  }

  lemma AddReals(i: int, j: int)
    ensures i as real + j as real == (i + j) as real && i as real - j as real == (i - j) as real
  {
  }

  lemma {:induction false} WholeMultiple(x: real, n: nat)
    requires IsWhole(x)
    ensures IsWhole(Times(n as real, x))
  {
    hide Times, IsWhole;
    if n == 0 {
      TimesZero(x);
      WholeInt(0);
    } else {
      WholeMultiple(x, n - 1);
      TimesAdd((n - 1) as real, 1.0, x);
      TimesOne(x);
      AddReals(n - 1, 1);
      WholeSum(Times((n - 1) as real, x), x);
    }
  }

  lemma TimesZero(x: real)
    ensures Times(0.0, x) == 0.0
  {
  }

  lemma WholeTimes(n: int, x: real)
    requires IsWhole(x)
    ensures IsWhole(Times(n as real, x))
  {
    hide Times, IsWhole;
    if n >= 0 {
      WholeMultiple(x, n);
    } else {
      WholeMultiple(x, -n);
      TimesAdd(0.0, (-n) as real, x);
      TimesZero(x);
      AddReals(0, -n);
      WholeInt(0);
      WholeSum(0.0, Times((-n) as real, x));
    }
  }

  // ------------------------------------------------------------------- configuration

  /** Configure's defaults, for a budget it accepts. */
  function Normalized(b: Budget): Budget {
    Budget(b.perSecond,
           if b.perMinute <= 0.0 then b.perSecond * 60.0 else b.perMinute,
           if b.burst <= 0 then Max(1, b.perSecond.Floor) else b.burst,
           b.jitterMin,
           Max(b.jitterMax, b.jitterMin))
  }

  ghost predicate ValidBudget(b: Budget) {
    b.perSecond > 0.0 && b.perMinute > 0.0 && b.burst >= 1
  }

  /** Tokens per nanosecond. */
  function SecondRate(b: Budget): real { b.perSecond / NANOS }
  function MinuteRate(b: Budget): real { b.perMinute / 60.0 / NANOS }

  function SecondCap(b: Budget): real { b.burst as real }
  function MinuteCap(b: Budget): real { MaxReal(b.perMinute, b.burst as real) }

  function NewBucket(b: Budget, now: int): Bucket {
    Bucket(b, SecondCap(b), MinuteCap(b), now)
  }

  ghost predicate Valid(b: Bucket) {
    && ValidBudget(b.budget)
    && 0.0 <= b.second <= SecondCap(b.budget)
    && 0.0 <= b.minute <= MinuteCap(b.budget)
  }

  // --------------------------------------------------------------------- the operations

  function Grown(b: Bucket, weight: int): Bucket {
    b.(budget := b.budget.(burst := Max(weight, b.budget.burst)))
  }

  function Refilled(b: Bucket, now: int): Bucket {
    if now < b.lastRefill then b.(lastRefill := now)
    else if now - b.lastRefill <= 0 then b
    else
      var elapsed := (now - b.lastRefill) as real;
      b.(second := MinReal(SecondCap(b.budget), b.second + Times(elapsed, SecondRate(b.budget))),
         minute := MinReal(MinuteCap(b.budget), b.minute + Times(elapsed, MinuteRate(b.budget))),
         lastRefill := now)
  }

  /** The bucket as reserve sees it when it compares tokens. */
  function Ready(b: Bucket, op: Op): Bucket {
    Refilled(Grown(b, op.weight), op.now)
  }

  /** Both rates can pay. */
  predicate Charged(b: Bucket, op: Op) {
    var g := Ready(b, op);
    g.second >= op.weight as real && g.minute >= op.weight as real
  }

  /** delayFor: nanoseconds, truncated. */
  function DelayFor(missing: real, rate: real): int {
    if missing <= 0.0 || rate <= 0.0 then 0 else Over(missing, rate).Floor
  }

  function Reserved(b: Bucket, op: Op): Bucket {
    var g := Ready(b, op);
    if Charged(b, op) then g.(second := g.second - op.weight as real, minute := g.minute - op.weight as real) else g
  }

  function Delay(b: Bucket, op: Op): int {
    var g := Ready(b, op);
    if Charged(b, op) then 0
    else Max(DelayFor(op.weight as real - g.second, SecondRate(g.budget)),
             DelayFor(op.weight as real - g.minute, MinuteRate(g.budget)))
  }

  function Run(b: Bucket, ops: seq<Op>): Bucket
    decreases ops
  {
    if ops == [] then b else Run(Reserved(b, ops[0]), ops[1..])
  }

  /** Total weight charged over a run. */
  function ChargedWeight(b: Bucket, ops: seq<Op>): int
    decreases ops
  {
    if ops == [] then 0
    else (if Charged(b, ops[0]) then ops[0].weight else 0) + ChargedWeight(Reserved(b, ops[0]), ops[1..])
  }

  // ------------------------------------------------------------------ the rate bound

  /** Wait raises weights below one to one. */
  predicate Positive(ops: seq<Op>) {
    forall i :: 0 <= i < |ops| ==> ops[i].weight >= 1
  }

  /** How far the clock moved forward, starting from `last`; steps back count as nothing. */
  function Ascent(last: int, ops: seq<Op>): nat
    decreases ops
  {
    if ops == [] then 0 else Max(0, ops[0].now - last) + Ascent(ops[0].now, ops[1..])
  }

  /** The largest burst or weight seen. */
  function Peak(burst: int, ops: seq<Op>): int
    decreases ops
  {
    if ops == [] then burst else Peak(Max(ops[0].weight, burst), ops[1..])
  }

  lemma ReadyKeepsValid(b: Bucket, op: Op)
    requires Valid(b) && op.weight >= 1
    ensures Valid(Ready(b, op)) && Valid(Reserved(b, op))
    ensures Reserved(b, op).lastRefill == op.now
    ensures Reserved(b, op).budget == b.budget.(burst := Max(op.weight, b.budget.burst))
  {
    hide Times;
    if op.now > b.lastRefill {
      TimesSign((op.now - b.lastRefill) as real, SecondRate(b.budget));
      TimesSign((op.now - b.lastRefill) as real, MinuteRate(b.budget));
    }
  }

  /** One reservation: tokens gained are at most rate times forward time, less what was charged. */
  lemma ReserveSpends(b: Bucket, op: Op)
    requires Valid(b) && op.weight >= 1
    ensures var spent := if Charged(b, op) then op.weight as real else 0.0;
            var forward := Max(0, op.now - b.lastRefill) as real;
            var after := Reserved(b, op);
            && after.second + spent <= b.second + Times(forward, SecondRate(b.budget))
            && after.minute + spent <= b.minute + Times(forward, MinuteRate(b.budget))
            && after.second + spent <= SecondCap(after.budget)
            && after.minute + spent <= MinuteCap(after.budget)
  {
  }

  lemma {:induction false} RunSpends(b: Bucket, ops: seq<Op>)
    requires Valid(b) && Positive(ops)
    ensures Valid(Run(b, ops)) && Run(b, ops).budget == b.budget.(burst := Peak(b.budget.burst, ops))
    ensures var forward := Ascent(b.lastRefill, ops) as real;
            && ChargedWeight(b, ops) as real + Run(b, ops).second <= b.second + Times(forward, SecondRate(b.budget))
            && ChargedWeight(b, ops) as real + Run(b, ops).minute <= b.minute + Times(forward, MinuteRate(b.budget))
    decreases ops
  {
    hide Times;
    if ops == [] {
      TimesSign(0.0, SecondRate(b.budget));
      TimesSign(0.0, MinuteRate(b.budget));
    } else {
      var op := ops[0];
      ReadyKeepsValid(b, op);
      ReserveSpends(b, op);
      RunSpends(Reserved(b, op), ops[1..]);
      TimesAdd(Max(0, op.now - b.lastRefill) as real, Ascent(op.now, ops[1..]) as real, SecondRate(b.budget));
      TimesAdd(Max(0, op.now - b.lastRefill) as real, Ascent(op.now, ops[1..]) as real, MinuteRate(b.budget));
    }
  }

  /**
    The rate bound, for any clock: over any window of reservations the charged weight
    is at most the burst plus the rate times the clock's forward movement in the window,
    for both rates at once.  `b` is the bucket before the window.
   */
  lemma WindowBound(b: Bucket, ops: seq<Op>)
    requires Valid(b) && Positive(ops) && ops != []
    ensures var burst := Peak(b.budget.burst, ops) as real;
            var forward := Ascent(ops[0].now, ops[1..]) as real;
            && ChargedWeight(b, ops) as real <= burst + Times(forward, SecondRate(b.budget))
            && ChargedWeight(b, ops) as real <= MaxReal(b.budget.perMinute, burst) + Times(forward, MinuteRate(b.budget))
  {
    hide Times, Ready, Reserved, Charged;
    ReadyKeepsValid(b, ops[0]);
    ReserveSpends(b, ops[0]);
    RunSpends(Reserved(b, ops[0]), ops[1..]);
    PeakGrows(Max(ops[0].weight, b.budget.burst), ops[1..]);
  }

  lemma {:induction false} PeakGrows(burst: int, ops: seq<Op>)
    ensures Peak(burst, ops) >= burst
    ensures forall i :: 0 <= i < |ops| ==> Peak(burst, ops) >= ops[i].weight
    ensures Peak(burst, ops) == burst || exists i :: 0 <= i < |ops| && Peak(burst, ops) == ops[i].weight
    decreases ops
  {
    if ops != [] {
      PeakGrows(Max(ops[0].weight, burst), ops[1..]);
      forall i | 0 <= i < |ops| ensures Peak(burst, ops) >= ops[i].weight {
        if i > 0 { assert ops[1..][i - 1] == ops[i]; }
      }
      if i :| 0 <= i < |ops[1..]| && Peak(burst, ops) == ops[1..][i].weight {
        assert ops[i + 1] == ops[1..][i];
      }
    }
  }

  lemma {:induction false} PeakAppend(burst: int, xs: seq<Op>, ys: seq<Op>)
    ensures Peak(burst, xs + ys) == Peak(Peak(burst, xs), ys)
    decreases xs
  {
    if xs == [] {
      assert xs + ys == ys;
    } else {
      assert (xs + ys)[1..] == xs[1..] + ys;
      PeakAppend(Max(xs[0].weight, burst), xs[1..], ys);
    }
  }

  predicate NonDecreasing(ops: seq<Op>) {
    forall i, j :: 0 <= i < j < |ops| ==> ops[i].now <= ops[j].now
  }

  lemma {:induction false} AscentOfSteadyClock(last: int, ops: seq<Op>)
    requires NonDecreasing(ops) && (ops != [] ==> last <= ops[0].now)
    ensures Ascent(last, ops) == if ops == [] then 0 else ops[|ops| - 1].now - last
    decreases ops
  {
    if ops != [] { AscentOfSteadyClock(ops[0].now, ops[1..]); }
  }

  /** A weight passed in the window from reservation i to j keeps both rates. */
  ghost predicate WithinRates(budget: Budget, ops: seq<Op>, i: nat, j: nat, weight: int)
    requires i < j <= |ops|
  {
    var burst := Peak(budget.burst, ops[..j]) as real;
    var d := (ops[j - 1].now - ops[i].now) as real;
    && weight as real <= burst + Times(d, SecondRate(budget))
    && weight as real <= MaxReal(budget.perMinute, burst) + Times(d, MinuteRate(budget))
  }

  /**
    What is charged over a whole life: from a fresh bucket, under a clock that never steps
    back, any window from reservation i to j of any run charges at most B + rps * d and at
    most max(rpm, B) + (rpm / 60) * d, where d is the window's length and B the largest of
    the configured burst and the weights asked so far.  What is admitted, charged or not,
    is the subject of AdmissionBoundedIff.
   */
  lemma RateBound(budget: Budget, start: int, ops: seq<Op>, i: nat, j: nat)
    requires ValidBudget(budget) && Positive(ops) && NonDecreasing(ops) && i < j <= |ops|
    ensures WithinRates(budget, ops, i, j, ChargedWeight(Run(NewBucket(budget, start), ops[..i]), ops[i..j]))
  {
    hide Times, Run, Ascent, Peak, ChargedWeight;
    var before := Run(NewBucket(budget, start), ops[..i]);
    RunSpends(NewBucket(budget, start), ops[..i]);
    var window := ops[i..j];
    WindowBound(before, window);
    AscentOfSteadyClock(window[0].now, window[1..]);
    PeakAppend(budget.burst, ops[..i], window);
    assert ops[..i] + window == ops[..j];
  }

  // ---------------------------------------------------------------- the returned delay

  lemma RatesArePositive(b: Budget)
    requires ValidBudget(b)
    ensures SecondRate(b) > 0.0 && MinuteRate(b) > 0.0
  {
  }

  /** The exact time, in nanoseconds, until both rates can pay for a refused request. */
  function ExactWait(b: Bucket, op: Op): real
    requires Valid(b) && op.weight >= 1
  {
    var g := Ready(b, op);
    ReadyKeepsValid(b, op);
    RatesArePositive(g.budget);
    MaxReal(Over(op.weight as real - g.second, SecondRate(g.budget)), Over(op.weight as real - g.minute, MinuteRate(g.budget)))
  }

  /** Undisturbed, the same request is granted after `d` nanoseconds exactly when `d` reaches the exact wait. */
  lemma GrantedAfterWait(b: Bucket, op: Op, d: nat)
    requires Valid(b) && op.weight >= 1 && !Charged(b, op)
    ensures Charged(Reserved(b, op), Op(op.now + d, op.weight)) <==> ExactWait(b, op) <= d as real
  {
    hide Times, Over;
    var g := Ready(b, op);
    ReadyKeepsValid(b, op);
    RatesArePositive(g.budget);
    OverOrder(op.weight as real - g.second, SecondRate(g.budget), d as real);
    OverOrder(op.weight as real - g.minute, MinuteRate(g.budget), d as real);
    TimesSign(0.0, SecondRate(g.budget));
    TimesSign(0.0, MinuteRate(g.budget));
  }

  lemma ExactWaitIsPositive(b: Bucket, op: Op)
    requires Valid(b) && op.weight >= 1 && !Charged(b, op)
    ensures ExactWait(b, op) > 0.0
  {
  }

  lemma DelayTruncates(b: Bucket, op: Op)
    requires Valid(b) && op.weight >= 1 && !Charged(b, op)
    ensures Delay(b, op) == ExactWait(b, op).Floor
  {
  }

  /** The request again, `d` nanoseconds later. */
  function Later(op: Op, d: int): Op { Op(op.now + d, op.weight) }

  /**
    The delay of a refused request against the least wait that gets it granted: they
    agree exactly when the exact wait is a whole number of nanoseconds; otherwise the
    delay is one nanosecond short, and one more nanosecond always suffices.
   */
  lemma DelayIsLeastWaitIff(b: Bucket, op: Op)
    requires Valid(b) && op.weight >= 1 && !Charged(b, op)
    ensures var delay, after := Delay(b, op), Reserved(b, op);
            && delay >= 0
            && (forall d: nat :: d < delay ==> !Charged(after, Later(op, d)))
            && (Charged(after, Later(op, delay)) <==> IsWhole(ExactWait(b, op)))
            && Charged(after, Later(op, delay + 1))
  {
    hide Times, Over, Charged, Reserved, ExactWait, Delay;
    DelayTruncates(b, op);
    ExactWaitIsPositive(b, op);
    var delay := Delay(b, op);
    forall d: nat | d < delay ensures !Charged(Reserved(b, op), Later(op, d)) {
      GrantedAfterWait(b, op, d);
    }
    GrantedAfterWait(b, op, delay);
    GrantedAfterWait(b, op, delay + 1);
  }

  // ------------------------------------------- admissions that are not paid for

  /** reserve answers 0 without charging. */
  predicate Unpaid(b: Bucket, op: Op) {
    !Charged(b, op) && Delay(b, op) == 0
  }

  /** That happens exactly when the shortfall, at both rates, is under one nanosecond of refill. */
  lemma UnpaidIff(b: Bucket, op: Op)
    requires Valid(b) && op.weight >= 1
    ensures Unpaid(b, op) <==>
            var g := Ready(b, op);
            var w := op.weight as real;
            && (g.second < w || g.minute < w)
            && w - g.second < SecondRate(g.budget) && w - g.minute < MinuteRate(g.budget)
  {
    hide Times, Over;
    if !Charged(b, op) {
      var g, w := Ready(b, op), op.weight as real;
      ReadyKeepsValid(b, op);
      RatesArePositive(g.budget);
      DelayTruncates(b, op);
      ExactWaitIsPositive(b, op);
      UnderOne(w - g.second, SecondRate(g.budget));
      UnderOne(w - g.minute, MinuteRate(g.budget));
    }
  }

  lemma UnderOne(x: real, r: real)
    requires r > 0.0
    ensures Over(x, r) < 1.0 <==> x < r
  {
  }

  lemma TimesOne(r: real)
    ensures Times(1.0, r) == r && Times(r, 1.0) == r
  {
  }

  /** No run from a fresh bucket meets an unpaid admission. */
  ghost predicate AlwaysPays(budget: Budget) {
    forall start: int, ops: seq<Op>, op: Op :: Positive(ops) && op.weight >= 1 ==>
      !Unpaid(Run(NewBucket(budget, start), ops), op)
  }

  /** Nanoseconds that one token takes. */
  function SecondPeriod(b: Budget): real
    requires b.perSecond > 0.0
  {
    Over(NANOS, b.perSecond)
  }

  function MinutePeriod(b: Budget): real
    requires b.perMinute > 0.0
  {
    Over(60.0 * NANOS, b.perMinute)
  }

  lemma PeriodTimesRate(b: Budget)
    requires ValidBudget(b)
    ensures SecondPeriod(b) > 0.0 && Times(SecondPeriod(b), SecondRate(b)) == 1.0
    ensures MinutePeriod(b) > 0.0 && Times(MinutePeriod(b), MinuteRate(b)) == 1.0
  {
  }

  /** The minute rate is at least the second rate, as the default is: the minute level never runs short first. */
  ghost predicate Ample(b: Budget) { b.perMinute >= b.perSecond * 60.0 }

  /** How far the minute level can lead the second level. */
  function Lead(b: Budget): real { MaxReal(0.0, b.perMinute - b.burst as real) }

  /** Not even a lead of this much lets the second level run short first. */
  ghost predicate Harmless(b: Budget, lead: real)
    requires ValidBudget(b)
  {
    lead == 0.0 || Times((SecondPeriod(b).Floor + 1) as real, MinuteRate(b)) <= 1.0 - lead
  }

  /** A lower minute rate, and too small a lead: the second level never runs short first. */
  ghost predicate Tight(b: Budget)
    requires ValidBudget(b)
  {
    !Ample(b) && Harmless(b, Lead(b))
  }

  lemma AmpleRates(b: Budget)
    requires ValidBudget(b)
    ensures SecondCap(b) <= MinuteCap(b) == SecondCap(b) + Lead(b)
    ensures Ample(b) <==> SecondRate(b) <= MinuteRate(b)
  {
  }

  /** One token takes a whole number of nanoseconds, at each rate that can run short. */
  ghost predicate WholePeriods(b: Budget) {
    ValidBudget(b) && (Tight(b) || IsWhole(SecondPeriod(b))) && (Ample(b) || IsWhole(MinutePeriod(b)))
  }

  /** A level that is a whole number of nanoseconds of refill. */
  ghost predicate WholeLevel(level: real, period: real) { IsWhole(period) && IsWhole(Times(level, period)) }

  /** The second level was `m` some `n` nanoseconds of refill ago; the minute level led it by no more than `lead`. */
  ghost predicate TrailsBy(b: Bucket, m: int, n: nat, lead: real)
    requires ValidBudget(b.budget)
  {
    && !Ample(b.budget) && Lead(b.budget) <= lead && Harmless(b.budget, lead)
    && b.second == m as real + Times(n as real, SecondRate(b.budget))
    && b.minute <= m as real + lead + Times(n as real, MinuteRate(b.budget))
  }

  ghost predicate Trails(b: Bucket)
    requires ValidBudget(b.budget)
  {
    exists m: int, n: nat, lead: real :: TrailsBy(b, m, n, lead)
  }

  /** Each level is whole, or stays out of the way of the other. */
  ghost predicate OnGrid(b: Bucket) {
    && ValidBudget(b.budget)
    && (WholeLevel(b.second, SecondPeriod(b.budget)) || Trails(b))
    && (WholeLevel(b.minute, MinutePeriod(b.budget)) || (Ample(b.budget) && b.second <= b.minute))
  }

  lemma TimesAssoc(x: real, y: real, z: real)
    ensures Times(Times(x, y), z) == Times(x, Times(y, z))
    ensures Times(x, y) == Times(y, x)
  {
  }

  /** Refilling for `elapsed` nanoseconds moves a level by `elapsed` on the grid. */
  lemma GridRefill(level: real, cap: real, period: real, rate: real, elapsed: int)
    requires Times(period, rate) == 1.0
    requires IsWhole(Times(level, period)) && IsWhole(Times(cap, period))
    ensures IsWhole(Times(MinReal(cap, level + Times(elapsed as real, rate)), period))
  {
    hide Times;
    var e := elapsed as real;
    TimesAdd(level, Times(e, rate), period);
    TimesAssoc(e, rate, period);
    TimesAssoc(period, rate, 0.0);
    TimesOne(e);
    WholeSum(Times(level, period), e);
  }

  lemma CapsOnGrid(b: Budget)
    requires ValidBudget(b)
    ensures IsWhole(SecondPeriod(b)) ==> WholeLevel(SecondCap(b), SecondPeriod(b))
    ensures IsWhole(MinutePeriod(b)) ==> WholeLevel(MinuteCap(b), MinutePeriod(b))
  {
    hide Times, Over;
    if IsWhole(SecondPeriod(b)) { WholeTimes(b.burst, SecondPeriod(b)); }
    if IsWhole(MinutePeriod(b)) { WholeTimes(b.burst, MinutePeriod(b)); }
    OverTimes(60.0 * NANOS, b.perMinute);
    TimesAssoc(b.perMinute, MinutePeriod(b), 0.0);
    assert IsWhole(60.0 * NANOS);
  }

  lemma NewOnGrid(budget: Budget, start: int)
    requires WholePeriods(budget)
    ensures Valid(NewBucket(budget, start)) && OnGrid(NewBucket(budget, start))
  {
    hide Times, Over, IsWhole, WholeLevel, Harmless;
    CapsOnGrid(budget);
    AmpleRates(budget);
    if Tight(budget) {
      TimesZero(SecondRate(budget));
      TimesZero(MinuteRate(budget));
      assert TrailsBy(NewBucket(budget, start), budget.burst, 0, Lead(budget));
    }
  }

  /** A minute level that leads keeps leading. */
  lemma LeadIsKept(b: Bucket, op: Op)
    requires Valid(b) && op.weight >= 1 && Ample(b.budget) && b.second <= b.minute
    ensures Ample(Ready(b, op).budget) && Ready(b, op).second <= Ready(b, op).minute
  {
    hide Times;
    var c := Grown(b, op.weight).budget;
    AmpleRates(c);
    if op.now > b.lastRefill { TimesMonotone((op.now - b.lastRefill) as real, SecondRate(c), MinuteRate(c)); }
  }

  /** A larger burst only shortens the lead. */
  lemma HarmlessGrows(b: Budget, burst: int, lead: real)
    requires ValidBudget(b) && b.burst <= burst && Lead(b) <= lead && Harmless(b, lead)
    ensures Lead(b.(burst := burst)) <= lead && Harmless(b.(burst := burst), lead)
  {
    hide Times, Over;
  }

  /** Refilling either counts on, or starts afresh from the full burst. */
  lemma TrailIsKept(b: Bucket, op: Op, m: int, n: nat, lead: real)
    requires Valid(b) && op.weight >= 1 && TrailsBy(b, m, n, lead)
    ensures Trails(Ready(b, op))
  {
    hide Times, Over, Harmless;
    var g, c := Ready(b, op), Grown(b, op.weight).budget;
    HarmlessGrows(b.budget, c.burst, lead);
    AmpleRates(c);
    if op.now <= b.lastRefill {
      assert TrailsBy(g, m, n, lead);
    } else {
      var more := op.now - b.lastRefill;
      AddReals(n, more);
      TimesAdd(n as real, more as real, SecondRate(c));
      TimesAdd(n as real, more as real, MinuteRate(c));
      if g.second == SecondCap(c) {
        TimesZero(SecondRate(c));
        TimesZero(MinuteRate(c));
        assert TrailsBy(g, c.burst, 0, lead);
      } else {
        assert TrailsBy(g, m, n + more, lead);
      }
    }
  }

  lemma TrailIsCharged(g: Bucket, w: int, m: int, n: nat, lead: real)
    requires ValidBudget(g.budget) && TrailsBy(g, m, n, lead)
    ensures Trails(g.(second := g.second - w as real, minute := g.minute - w as real))
  {
    hide Times, Over, Harmless;
    AddReals(m, w);
    assert TrailsBy(g.(second := g.second - w as real, minute := g.minute - w as real), m - w, n, lead);
  }

  /** A whole token at the second rate, times the minute rate, leaves room for the lead. */
  lemma LeadFits(b: Budget, q: real, lead: real)
    requires ValidBudget(b) && !Ample(b) && 0.0 <= lead && Harmless(b, lead) && 1.0 <= q
    ensures Times(Times(q, SecondPeriod(b)), MinuteRate(b)) <= q - lead
  {
    hide Times, Over;
    var period, rate := SecondPeriod(b), MinuteRate(b);
    AmpleRates(b);
    PeriodTimesRate(b);
    TimesAssoc(q, period, rate);
    TimesMonotone(period, rate, SecondRate(b));
    TimesAssoc(period, rate, 0.0);
    TimesAssoc((period.Floor + 1) as real, rate, 0.0);
    RatesArePositive(b);
    TimesMonotone(rate, period, (period.Floor + 1) as real);
    assert Times(period, rate) <= 1.0 - lead;
    TimesMonotone(q, Times(period, rate), 1.0 - lead);
    TimesAssoc(q, 1.0 - lead, 0.0);
    TimesAdd(1.0, lead, q);
    TimesOne(q);
    TimesMonotone(lead, 1.0, q);
    TimesOne(lead);
  }

  /** Where the second level trails, the minute level takes longer to make up for what is missing. */
  lemma TrailingWait(g: Bucket, w: int, m: int, n: nat, lead: real)
    requires ValidBudget(g.budget) && TrailsBy(g, m, n, lead) && g.second < w as real
    requires SecondRate(g.budget) > 0.0 && MinuteRate(g.budget) > 0.0
    ensures Over(w as real - g.second, SecondRate(g.budget)) <= Over(w as real - g.minute, MinuteRate(g.budget))
  {
    hide Times, Over, Harmless;
    var second, minute, period := SecondRate(g.budget), MinuteRate(g.budget), SecondPeriod(g.budget);
    var q, d, ago := (w - m) as real, Over(w as real - g.minute, minute), n as real;
    TimesSign(ago, second);
    AddReals(w, m);
    LeadFits(g.budget, q, lead);
    OverTimes(w as real - g.minute, minute);
    TimesAdd(d, ago, minute);
    var whole := Times(q, period);
    TimesAdd(d + ago, whole, minute);
    TimesSign(d + ago - whole, minute);
    assert d + ago >= whole;
    PeriodTimesRate(g.budget);
    TimesAssoc(q, period, second);
    TimesOne(q);
    TimesAdd(d + ago, whole, second);
    TimesSign(d + ago - whole, second);
    TimesAdd(d, ago, second);
    OverOrder(w as real - g.second, second, d);
  }

  lemma TimesMonotone(x: real, y: real, z: real)
    requires 0.0 <= x && y <= z
    ensures Times(x, y) <= Times(x, z)
  {
  }

  lemma GridReady(b: Bucket, op: Op)
    requires Valid(b) && OnGrid(b) && op.weight >= 1
    ensures OnGrid(Ready(b, op))
  {
    hide Times, Over, IsWhole, TrailsBy;
    var c := Grown(b, op.weight).budget;
    CapsOnGrid(c);
    PeriodTimesRate(c);
    if Ample(b.budget) && b.second <= b.minute { LeadIsKept(b, op); }
    if m: int, n: nat, lead: real :| TrailsBy(b, m, n, lead) { TrailIsKept(b, op, m, n, lead); }
    if op.now > b.lastRefill {
      if WholeLevel(b.second, SecondPeriod(c)) { GridRefill(b.second, SecondCap(c), SecondPeriod(c), SecondRate(c), op.now - b.lastRefill); }
      if WholeLevel(b.minute, MinutePeriod(c)) { GridRefill(b.minute, MinuteCap(c), MinutePeriod(c), MinuteRate(c), op.now - b.lastRefill); }
    }
  }

  lemma GridReserve(b: Bucket, op: Op)
    requires Valid(b) && OnGrid(b) && op.weight >= 1
    ensures OnGrid(Reserved(b, op))
  {
    hide Times, Over, IsWhole, Ready, TrailsBy;
    GridReady(b, op);
    ReadyKeepsValid(b, op);
    var g := Ready(b, op);
    if m: int, n: nat, lead: real :| TrailsBy(g, m, n, lead) { TrailIsCharged(g, op.weight, m, n, lead); }
    if WholeLevel(g.second, SecondPeriod(g.budget)) { GridSubtract(g.second, op.weight, SecondPeriod(g.budget)); }
    if WholeLevel(g.minute, MinutePeriod(g.budget)) { GridSubtract(g.minute, op.weight, MinutePeriod(g.budget)); }
  }

  lemma GridSubtract(level: real, w: int, period: real)
    requires IsWhole(period) && IsWhole(Times(level, period))
    ensures IsWhole(Times(level - w as real, period)) && IsWhole(Times(w as real - level, period))
  {
    hide Times;
    WholeTimes(w, period);
    TimesAdd(level, w as real, period);
    TimesAdd(w as real, level, period);
    WholeSum(Times(level, period), Times(w as real, period));
    WholeSum(Times(w as real, period), Times(level, period));
  }

  lemma {:induction false} GridRun(b: Bucket, ops: seq<Op>)
    requires Valid(b) && OnGrid(b) && Positive(ops)
    ensures Valid(Run(b, ops)) && OnGrid(Run(b, ops))
    decreases ops
  {
    hide Times, Over, IsWhole, Reserved, OnGrid;
    if ops != [] {
      ReadyKeepsValid(b, ops[0]);
      GridReserve(b, ops[0]);
      GridRun(Reserved(b, ops[0]), ops[1..]);
    }
  }

  lemma OverIsTimesPeriod(x: real, period: real, rate: real)
    requires rate > 0.0 && Times(period, rate) == 1.0
    ensures Over(x, rate) == Times(x, period)
  {
  }

  /** Making up for what is missing takes whole nanoseconds. */
  lemma WholeWait(level: real, w: int, period: real, rate: real)
    requires rate > 0.0 && Times(period, rate) == 1.0 && WholeLevel(level, period)
    ensures IsWhole(Over(w as real - level, rate))
  {
    hide Times, Over;
    OverIsTimesPeriod(w as real - level, period, rate);
    GridSubtract(level, w, period);
  }

  /** On the grid the exact wait is whole, so nothing is admitted unpaid. */
  lemma GridPays(b: Bucket, op: Op)
    requires Valid(b) && OnGrid(b) && op.weight >= 1
    ensures !Unpaid(b, op)
    ensures !Charged(b, op) ==> IsWhole(ExactWait(b, op))
  {
    hide Times, Over, Ready, IsWhole, OnGrid;
    if !Charged(b, op) {
      var g, w := Ready(b, op), op.weight as real;
      ReadyKeepsValid(b, op);
      RatesArePositive(g.budget);
      PeriodTimesRate(g.budget);
      GridReady(b, op);
      WaitDecides(g, op.weight);
      if WholeLevel(g.second, SecondPeriod(g.budget)) {
        WholeWait(g.second, op.weight, SecondPeriod(g.budget), SecondRate(g.budget));
      }
      if WholeLevel(g.minute, MinutePeriod(g.budget)) {
        WholeWait(g.minute, op.weight, MinutePeriod(g.budget), MinuteRate(g.budget));
      }
      DelayTruncates(b, op);
      ExactWaitIsPositive(b, op);
      PositiveWhole(ExactWait(b, op));
    }
  }

  /** A level that is not whole never decides the wait. */
  lemma WaitDecides(g: Bucket, w: int)
    requires OnGrid(g) && (g.second < w as real || g.minute < w as real) && SecondRate(g.budget) > 0.0 && MinuteRate(g.budget) > 0.0
    ensures var second, minute := Over(w as real - g.second, SecondRate(g.budget)), Over(w as real - g.minute, MinuteRate(g.budget));
            && (WholeLevel(g.second, SecondPeriod(g.budget)) || second <= minute)
            && (WholeLevel(g.minute, MinutePeriod(g.budget)) || minute <= second)
    ensures WholeLevel(g.second, SecondPeriod(g.budget)) || WholeLevel(g.minute, MinutePeriod(g.budget))
  {
    hide Times, Over, IsWhole, TrailsBy;
    AmpleRates(g.budget);
    if !WholeLevel(g.second, SecondPeriod(g.budget)) {
      var m: int, n: nat, lead: real :| TrailsBy(g, m, n, lead);
      TrailingIsNotAmple(g, m, n, lead);
      if g.second < w as real {
        TrailingWait(g, w, m, n, lead);
      } else {
        SignOfWait(w as real - g.second, SecondRate(g.budget));
        SignOfWait(w as real - g.minute, MinuteRate(g.budget));
      }
    }
    if !WholeLevel(g.minute, MinutePeriod(g.budget)) {
      OverAntitone(w as real - g.second, w as real - g.minute, SecondRate(g.budget), MinuteRate(g.budget));
    }
  }

  lemma TrailingIsNotAmple(g: Bucket, m: int, n: nat, lead: real)
    requires ValidBudget(g.budget) && TrailsBy(g, m, n, lead)
    ensures !Ample(g.budget)
  {
  }

  lemma SignOfWait(x: real, rate: real)
    requires rate > 0.0
    ensures x <= 0.0 <==> Over(x, rate) <= 0.0
  {
    hide Times, Over;
    OverOrder(x, rate, 0.0);
    TimesZero(rate);
  }

  lemma PositiveWhole(x: real)
    requires x > 0.0 && IsWhole(x)
    ensures x.Floor != 0
  {
  }

  /** Less to make up for, at a higher rate, takes no longer. */
  lemma OverAntitone(x: real, y: real, r: real, q: real)
    requires 0.0 < x && y <= x && 0.0 < r <= q
    ensures Over(y, q) <= Over(x, r)
  {
    hide Times, Over;
    OverOrder(y, q, Over(x, r));
    OverTimes(x, r);
    OverOrder(x, r, 0.0);
    TimesSign(0.0, r);
    TimesMonotone(Over(x, r), r, q);
  }

  lemma WholePeriodsAlwaysPay(budget: Budget)
    requires WholePeriods(budget)
    ensures AlwaysPays(budget)
  {
    hide Times, Over, IsWhole, Unpaid, Run, OnGrid;
    forall start: int, ops: seq<Op>, op: Op | Positive(ops) && op.weight >= 1
      ensures !Unpaid(Run(NewBucket(budget, start), ops), op)
    {
      NewOnGrid(budget, start);
      GridRun(NewBucket(budget, start), ops);
      GridPays(Run(NewBucket(budget, start), ops), op);
    }
  }

  /**
    Every admission is paid for exactly when one token takes a whole number of nanoseconds
    at each rate that can run short.  With the default minute rate that is the second rate.
   */
  lemma AlwaysPaysIff(budget: Budget)
    requires ValidBudget(budget)
    ensures AlwaysPays(budget) <==> WholePeriods(budget)
  {
    hide Times, Over, Unpaid, Run, WholePeriods;
    if WholePeriods(budget) {
      WholePeriodsAlwaysPay(budget);
    } else {
      var ops, op := UnpaidRun(budget);
    }
  }

  /** Waiting floor(period) refills less than one token, and lacks less than a nanosecond's worth. */
  lemma JustShort(period: real, rate: real)
    requires rate > 0.0 && period > 0.0 && Times(period, rate) == 1.0 && !IsWhole(period)
    ensures 1.0 - rate < Times(period.Floor as real, rate) < 1.0
  {
    hide Times;
    var wait := period.Floor as real;
    TimesAdd(period, wait, rate);
    TimesSign(period - wait, rate);
    TimesOne(rate);
    TimesAdd(1.0, period - wait, rate);
    TimesSign(1.0 - (period - wait), rate);
  }

  function Drain(budget: Budget): Op { Op(0, budget.burst) }

  function Ask(budget: Budget): Op
    requires budget.perSecond > 0.0
  {
    Op(SecondPeriod(budget).Floor, 1)
  }

  /** The second rate runs short by less than a nanosecond's worth; the minute rate leads by enough to keep up. */
  lemma DrainThenAsk(budget: Budget)
    requires ValidBudget(budget) && !IsWhole(SecondPeriod(budget)) && !Tight(budget)
    ensures Unpaid(Run(NewBucket(budget, 0), [Drain(budget)]), Ask(budget)) && Ask(budget).now >= 0
  {
    hide Times, Over;
    var full, drain, op := NewBucket(budget, 0), Drain(budget), Ask(budget);
    assert [drain][1..] == [];
    var b := Reserved(full, drain);
    ReadyKeepsValid(full, drain);
    ReadyKeepsValid(b, op);
    assert Run(full, [drain]) == b;
    AmpleRates(budget);
    if Ample(budget) { LeadIsKept(b, op); }
    PeriodTimesRate(budget);
    JustShort(SecondPeriod(budget), SecondRate(budget));
    TimesZero(SecondRate(budget));
    TimesZero(MinuteRate(budget));
    TimesAdd(op.now as real, 1.0, MinuteRate(budget));
    TimesOne(MinuteRate(budget));
    AddReals(op.now, 1);
    UnpaidIff(b, op);
  }

  /** A weight no cap is below. */
  function Flood(budget: Budget): int { Max(budget.burst, budget.perMinute.Floor + 1) }

  /** Time enough to refill it at both rates. */
  function FloodTime(budget: Budget): int
    requires ValidBudget(budget)
  {
    Max(Over(Flood(budget) as real, MinuteRate(budget)).Floor, Over(Flood(budget) as real, SecondRate(budget)).Floor) + 1
  }

  /** Grow the burst to what the minute level holds, let both fill up, and take it all. */
  lemma FloodEmptiesBoth(budget: Budget)
    requires ValidBudget(budget)
    ensures var w, at := Flood(budget), FloodTime(budget);
            && w >= 1 && at >= 0
            && Run(NewBucket(budget, 0), [Op(0, w), Op(at, w)]) == Bucket(budget.(burst := w), 0.0, 0.0, at)
  {
    hide Times, Over;
    var w, at := Flood(budget), FloodTime(budget);
    var first, second := Op(0, w), Op(at, w);
    var full := NewBucket(budget, 0);
    ReadyKeepsValid(full, first);
    var b := Reserved(full, first);
    assert [first, second][1..] == [second] && [second][1..] == [];
    RatesArePositive(b.budget);
    FillsUp(w as real, SecondRate(b.budget), at);
    FillsUp(w as real, MinuteRate(b.budget), at);
    ReadyKeepsValid(b, second);
    assert Reserved(b, second) == Bucket(budget.(burst := w), 0.0, 0.0, at);
    assert Run(b, [second]) == Reserved(b, second);
  }

  lemma FillsUp(w: real, rate: real, at: int)
    requires w > 0.0 && rate > 0.0 && Over(w, rate) <= at as real
    ensures at > 0 && Times(at as real, rate) >= w
  {
    hide Times, Over;
    OverOrder(w, rate, at as real);
    TimesSign(at as real, rate);
  }

  /** At a lower minute rate, the minute level then is the one that runs short. */
  lemma FloodThenAsk(budget: Budget)
    requires ValidBudget(budget) && !Ample(budget) && !IsWhole(MinutePeriod(budget))
    ensures var w, at := Flood(budget), FloodTime(budget);
            Unpaid(Run(NewBucket(budget, 0), [Op(0, w), Op(at, w)]), Op(at + MinutePeriod(budget).Floor, 1))
            && w >= 1 && at >= 0 && MinutePeriod(budget).Floor >= 0
  {
    hide Times, Over, Run, Flood, FloodTime;
    FloodEmptiesBoth(budget);
    var w, at := Flood(budget), FloodTime(budget);
    var b, op := Bucket(budget.(burst := w), 0.0, 0.0, at), Op(at + MinutePeriod(budget).Floor, 1);
    AmpleRates(budget);
    PeriodTimesRate(budget);
    JustShort(MinutePeriod(budget), MinuteRate(budget));
    var wait := MinutePeriod(budget).Floor as real;
    TimesMonotone(wait, MinuteRate(budget), SecondRate(budget));
    TimesSign(0.0, MinuteRate(budget));
    UnpaidIff(b, op);
  }

  /** A run under a steady clock that ends in an unpaid admission. */
  lemma UnpaidRun(budget: Budget) returns (ops: seq<Op>, op: Op)
    requires ValidBudget(budget) && !WholePeriods(budget)
    ensures Positive(ops + [op]) && NonDecreasing(ops + [op]) && op.weight >= 1 && Positive(ops)
    ensures Unpaid(Run(NewBucket(budget, 0), ops), op)
  {
    hide Times, Over, Run, Unpaid, Flood, FloodTime, Harmless;
    if !Tight(budget) && !IsWhole(SecondPeriod(budget)) {
      DrainThenAsk(budget);
      ops, op := [Drain(budget)], Ask(budget);
    } else {
      FloodThenAsk(budget);
      var w, at := Flood(budget), FloodTime(budget);
      ops, op := [Op(0, w), Op(at, w)], Op(at + MinutePeriod(budget).Floor, 1);
    }
  }

  // -------------------------------------------------- what Configure's numbers mean

  const SECOND: int := 1_000_000_000

  lemma RateUnits(b: Budget, seconds: int)
    ensures Times((seconds * SECOND) as real, SecondRate(b)) == b.perSecond * seconds as real
    ensures Times((seconds * SECOND) as real, MinuteRate(b)) == b.perMinute * seconds as real / 60.0
  {
    assert (seconds * SECOND) as real == seconds as real * 1_000_000_000.0;
  }

  /** The rate bound in the budget's own units: requests per second and requests per minute. */
  lemma RateBoundInSeconds(budget: Budget, start: int, ops: seq<Op>, i: nat, j: nat, seconds: nat)
    requires ValidBudget(budget) && Positive(ops) && NonDecreasing(ops) && i < j <= |ops|
    requires ops[j - 1].now - ops[i].now <= seconds * SECOND
    ensures var charged := ChargedWeight(Run(NewBucket(budget, start), ops[..i]), ops[i..j]) as real;
            var burst := Peak(budget.burst, ops[..j]) as real;
            && charged <= burst + budget.perSecond * seconds as real
            && charged <= MaxReal(budget.perMinute, burst) + budget.perMinute * seconds as real / 60.0
  {
    hide Times, Run, Peak, ChargedWeight, SecondRate, MinuteRate;
    RateBound(budget, start, ops, i, j);
    RateUnits(budget, seconds);
    RatesArePositive(budget);
    var d := (ops[j - 1].now - ops[i].now) as real;
    TimesGrows(d, (seconds * SECOND) as real, SecondRate(budget));
    TimesGrows(d, (seconds * SECOND) as real, MinuteRate(budget));
  }

  lemma TimesGrows(x: real, y: real, r: real)
    requires x <= y && r > 0.0
    ensures Times(x, r) <= Times(y, r)
  {
  }

  /** And the other way round: what a bucket left alone for some seconds can pay for. */
  lemma GrantedAfterSeconds(b: Bucket, weight: int, seconds: nat)
    requires Valid(b) && 1 <= weight <= b.budget.burst
    ensures Charged(b, Op(b.lastRefill + seconds * SECOND, weight)) <==>
            && weight as real <= b.second + b.budget.perSecond * seconds as real
            && weight as real <= b.minute + b.budget.perMinute * seconds as real / 60.0
  {
    hide Times, SecondRate, MinuteRate;
    RateUnits(b.budget, seconds);
    if seconds > 0 { assert b.lastRefill + seconds * SECOND - b.lastRefill == seconds * SECOND > 0; }
  }

  /**
    Configure keeps what the caller gives.  The default minute rate refills as fast as the
    second rate, the default burst is the largest whole number up to the second rate, but
    at least one, and the largest jitter is never below the smallest.
   */
  lemma ConfigureDefaults(b: Budget)
    requires b.perSecond > 0.0
    ensures var n := Normalized(b);
            && ValidBudget(n) && n.perSecond == b.perSecond && n.jitterMin == b.jitterMin
            && (b.perMinute > 0.0 ==> n.perMinute == b.perMinute)
            && (b.perMinute <= 0.0 ==> MinuteRate(n) == SecondRate(b))
            && (b.burst >= 1 ==> n.burst == b.burst)
            && (b.burst <= 0 ==> n.burst >= 1 && (n.burst == 1 || n.burst as real <= b.perSecond) && b.perSecond < (n.burst + 1) as real)
            && n.jitterMin <= n.jitterMax && (b.jitterMin <= b.jitterMax ==> n.jitterMax == b.jitterMax)
            && (b.jitterMax < b.jitterMin ==> n.jitterMax == b.jitterMin)
  {
  }

  /** The minute level does not refuse what the second level grants. */
  predicate SecondAlone(b: Bucket, op: Op) { Ready(b, op).second >= op.weight as real ==> Charged(b, op) }

  /** In no run of this budget does the minute level refuse what the second level grants. */
  ghost predicate SecondDecides(budget: Budget) {
    forall start: int, ops: seq<Op>, op: Op :: Positive(ops) && op.weight >= 1 ==> SecondAlone(Run(NewBucket(budget, start), ops), op)
  }

  /** That is so exactly when a minute allows no fewer requests than sixty seconds do. */
  lemma SecondDecidesIff(budget: Budget)
    requires ValidBudget(budget)
    ensures SecondDecides(budget) <==> budget.perMinute >= 60.0 * budget.perSecond
  {
    hide Times, Over, Run, SecondAlone, Flood, FloodTime;
    if Ample(budget) {
      forall start: int, ops: seq<Op>, op: Op | Positive(ops) && op.weight >= 1
        ensures SecondAlone(Run(NewBucket(budget, start), ops), op)
      {
        AmpleRates(budget);
        LeadThroughout(NewBucket(budget, start), ops, op);
      }
    } else {
      FloodEmptiesBoth(budget);
      var w, at := Flood(budget), FloodTime(budget);
      var b := Bucket(budget.(burst := w), 0.0, 0.0, at);
      var op := MinuteFallsBehind(b);
      assert !SecondAlone(Run(NewBucket(budget, 0), [Op(0, w), Op(at, w)]), op);
      assert Positive([Op(0, w), Op(at, w)]);
    }
  }

  /** With the default minute rate only the second rate limits. */
  lemma DefaultMinuteRateNeverRefuses(b: Budget)
    requires b.perSecond > 0.0 && b.perMinute <= 0.0
    ensures SecondDecides(Normalized(b))
  {
    hide SecondDecides;
    ConfigureDefaults(b);
    SecondDecidesIff(Normalized(b));
  }

  lemma {:induction false} LeadThroughout(b: Bucket, ops: seq<Op>, op: Op)
    requires Valid(b) && Ample(b.budget) && b.second <= b.minute && Positive(ops) && op.weight >= 1
    ensures SecondAlone(Run(b, ops), op)
    decreases ops
  {
    hide Ready, Valid;
    if ops == [] {
      LeadIsKept(b, op);
    } else {
      LeadIsKept(b, ops[0]);
      ReadyKeepsValid(b, ops[0]);
      LeadThroughout(Reserved(b, ops[0]), ops[1..], op);
    }
  }

  /** From two empty levels, wait until the slower one is a whole token behind. */
  lemma MinuteFallsBehind(b: Bucket) returns (op: Op)
    requires Valid(b) && !Ample(b.budget) && b.second == 0.0 && b.minute == 0.0
    ensures op.weight >= 1 && !SecondAlone(b, op)
  {
    hide Times, Over;
    var second, minute := SecondRate(b.budget), MinuteRate(b.budget);
    AmpleRates(b.budget);
    RatesArePositive(b.budget);
    var wait := Over(1.0, second - minute).Floor + 1;
    OverOrder(1.0, second - minute, wait as real);
    TimesDifference(wait as real, second, minute);
    TimesSign(wait as real, second - minute);
    TimesSign(wait as real, minute);
    op := Op(b.lastRefill + wait, Times(wait as real, second).Floor);
  }

  lemma TimesDifference(x: real, y: real, z: real)
    ensures Times(x, y - z) == Times(x, y) - Times(x, z)
  {
  }

  // ------------------------------------------------------------------ what is admitted

  /** reserve answers 0: charged, or unpaid. */
  predicate Admitted(b: Bucket, op: Op) { Delay(b, op) == 0 }

  /** Total weight admitted over a run. */
  function AdmittedWeight(b: Bucket, ops: seq<Op>): int
    decreases ops
  {
    if ops == [] then 0
    else (if Admitted(b, ops[0]) then ops[0].weight else 0) + AdmittedWeight(Reserved(b, ops[0]), ops[1..])
  }

  /** Over every window of every run under a steady clock, what is admitted keeps both rates. */
  ghost predicate AdmissionBounded(budget: Budget) {
    forall start: int, ops: seq<Op>, i: nat, j: nat :: Positive(ops) && NonDecreasing(ops) && i < j <= |ops| ==>
      AdmitsWithin(budget, start, ops, i, j)
  }

  ghost predicate AdmitsWithin(budget: Budget, start: int, ops: seq<Op>, i: nat, j: nat)
    requires i < j <= |ops|
  {
    WithinRates(budget, ops, i, j, AdmittedWeight(Run(NewBucket(budget, start), ops[..i]), ops[i..j]))
  }

  /** On the grid what is admitted is what is charged. */
  lemma {:induction false} GridAdmits(b: Bucket, ops: seq<Op>)
    requires Valid(b) && OnGrid(b) && Positive(ops)
    ensures AdmittedWeight(b, ops) == ChargedWeight(b, ops)
    decreases ops
  {
    hide Times, Over, IsWhole, Reserved, OnGrid, Charged, Delay;
    if ops != [] {
      GridPays(b, ops[0]);
      if Charged(b, ops[0]) { ChargedHasNoDelay(b, ops[0]); }
      ReadyKeepsValid(b, ops[0]);
      GridReserve(b, ops[0]);
      GridAdmits(Reserved(b, ops[0]), ops[1..]);
    }
  }

  lemma ChargedHasNoDelay(b: Bucket, op: Op)
    requires Charged(b, op)
    ensures Delay(b, op) == 0
  {
  }

  lemma WholePeriodsBoundAdmission(budget: Budget)
    requires WholePeriods(budget)
    ensures AdmissionBounded(budget)
  {
    hide Times, Over, IsWhole, OnGrid, Run, AdmittedWeight, ChargedWeight, WithinRates;
    forall start: int, ops: seq<Op>, i: nat, j: nat | Positive(ops) && NonDecreasing(ops) && i < j <= |ops|
      ensures AdmitsWithin(budget, start, ops, i, j)
    {
      NewOnGrid(budget, start);
      GridRun(NewBucket(budget, start), ops[..i]);
      GridAdmits(Run(NewBucket(budget, start), ops[..i]), ops[i..j]);
      RateBound(budget, start, ops, i, j);
    }
  }

  /** An unpaid admission leaves the bucket as it was, so it repeats for ever at the same instant. */
  lemma UnpaidRepeats(b: Bucket, op: Op)
    requires Unpaid(b, op)
    ensures Unpaid(Reserved(b, op), op)
  {
    hide Times, Over;
    assert Ready(Reserved(b, op), op) == Ready(b, op);
  }

  lemma {:induction false} AnyWeightGetsThrough(b: Bucket, op: Op, n: nat)
    requires Unpaid(b, op)
    ensures AdmittedWeight(b, seq(n, _ => op)) == n * op.weight
    decreases n
  {
    hide Unpaid, Reserved, Delay;
    if n > 0 {
      var ops := seq(n, _ => op);
      assert ops[1..] == seq(n - 1, _ => op);
      UnpaidIsAdmitted(b, op);
      UnpaidRepeats(b, op);
      AnyWeightGetsThrough(Reserved(b, op), op, n - 1);
    }
  }

  lemma UnpaidIsAdmitted(b: Bucket, op: Op)
    requires Unpaid(b, op)
    ensures Admitted(b, op)
  {
  }

  /**
    The limiter's promise: no window of any run admits more than both rates allow exactly
    when one token takes a whole number of nanoseconds at each rate that can run short.
    Otherwise any weight gets through in no time at all.
   */
  lemma AdmissionBoundedIff(budget: Budget)
    requires ValidBudget(budget)
    ensures AdmissionBounded(budget) <==> WholePeriods(budget)
  {
    hide Times, Over, Unpaid, Run, WholePeriods, AdmitsWithin, AdmittedWeight;
    if WholePeriods(budget) {
      WholePeriodsBoundAdmission(budget);
    } else {
      var ops, op := UnpaidRun(budget);
      UnpaidBreaksBound(budget, ops, op);
    }
  }

  /** After an unpaid admission the same request, at the same instant, exceeds every bound. */
  lemma UnpaidBreaksBound(budget: Budget, ops: seq<Op>, op: Op)
    requires ValidBudget(budget) && Positive(ops + [op]) && NonDecreasing(ops + [op]) && op.weight >= 1
    requires Unpaid(Run(NewBucket(budget, 0), ops), op)
    ensures !AdmissionBounded(budget)
  {
    hide Times, Over, Run, AdmittedWeight, Unpaid, WithinRates;
    var i, n := |ops|, Max(Peak(budget.burst, ops + [op]), 0) + 1;
    var all := ops + seq(n, _ => op);
    FloodIsSteady(ops, op, n);
    Modular.Scale(n, op.weight);
    AnyWeightGetsThrough(Run(NewBucket(budget, 0), ops), op, n);
    PeakOfFlood(budget.burst, ops, op, n);
    TooMuch(budget, all, i, i + n, n * op.weight);
    assert !AdmitsWithin(budget, 0, all, i, i + n);
  }

  lemma FloodIsSteady(ops: seq<Op>, op: Op, n: nat)
    requires Positive(ops + [op]) && NonDecreasing(ops + [op])
    ensures var all := ops + seq(n, _ => op);
            && Positive(all) && NonDecreasing(all)
            && all[..|ops|] == ops && all[|ops|..|ops| + n] == seq(n, _ => op) && all[..|ops| + n] == all
  {
    var all := ops + seq(n, _ => op);
    forall k | 0 <= k < |all| ensures all[k] == (ops + [op])[if k < |ops| then k else |ops|] { }
  }

  lemma PeakOfFlood(burst: int, ops: seq<Op>, op: Op, n: nat)
    requires n > 0
    ensures Peak(burst, ops + seq(n, _ => op)) == Peak(burst, ops + [op])
  {
    PeakAppend(burst, ops, seq(n, _ => op));
    PeakAppend(burst, ops, [op]);
    PeakGrows(Peak(burst, ops), seq(n, _ => op));
    PeakGrows(Peak(burst, ops), [op]);
    assert seq(n, _ => op)[0] == op;
  }

  /** In a window without length only the peak may pass. */
  lemma TooMuch(budget: Budget, ops: seq<Op>, i: nat, j: nat, weight: int)
    requires i < j <= |ops| && ops[i].now == ops[j - 1].now && weight > Peak(budget.burst, ops[..j])
    ensures !WithinRates(budget, ops, i, j, weight)
  {
  }
}
