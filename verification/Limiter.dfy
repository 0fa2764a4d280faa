/**
  The limiter around the buckets (internal/ratelimit/limiter.go): Configure, reserve
  with its jitter, and the Wait loop.  Timers may fire late, the context may be
  cancelled, and other callers may use the bucket while this one sleeps.
 */
module Limiter {
  import opened Wrappers
  import opened Numbers
  import opened Text
  import opened TokenBucket
  import Modular

  /** What happens around one reservation of a waiting caller. */
  datatype Turn = Turn(
    draw: nat,         // the random number behind the jitter
    late: nat,         // how much later than asked the timer fires
    cancelled: bool,   // the context ends before the timer
    others: seq<Op>)   // reservations by other callers during the sleep

  datatype Outcome = Returned | Cancelled | Waiting

  datatype Waited = Waited(bucket: Bucket, outcome: Outcome, rounds: nat, charges: nat)

  /** The jitter added to a reservation that need not wait. */
  function Jitter(b: Budget, draw: nat): int {
    if b.jitterMax <= 0 then 0
    else if b.jitterMax - b.jitterMin > 0 then b.jitterMin + draw % (b.jitterMax - b.jitterMin)
    else b.jitterMin
  }

  /** delay + jitter of one reservation. */
  function Pause(b: Bucket, op: Op, draw: nat): int {
    if Delay(b, op) == 0 then Jitter(Reserved(b, op).budget, draw) else Delay(b, op)
  }

  /** The loop of Wait, one turn per reservation; `Waiting` when the turns run out first. */
  function WaitLoop(b: Bucket, weight: int, now: int, turns: seq<Turn>): Waited
    decreases turns
  {
    if turns == [] then Waited(b, Waiting, 0, 0)
    else
      var op, turn := Op(now, weight), turns[0];
      var b', paid := Reserved(b, op), if Charged(b, op) then 1 else 0;
      var pause := Pause(b, op, turn.draw);
      if pause <= 0 then Waited(b', Returned, 1, paid)
      else if turn.cancelled then Waited(b', Cancelled, 1, paid)
      else
        var rest := WaitLoop(Run(b', turn.others), weight, now + pause + turn.late, turns[1..]);
        rest.(rounds := rest.rounds + 1, charges := rest.charges + paid)
  }

  // ------------------------------------------------------------------- a lone waiter

  lemma OverShift(x: real, r: real, d: real)
    requires r > 0.0
    ensures Over(x - Times(d, r), r) == Over(x, r) - d
  {
  }

  /** Waiting `d` shortens the exact wait by `d`, as long as it has not run out. */
  lemma WaitShrinks(b: Bucket, op: Op, d: nat)
    requires Valid(b) && op.weight >= 1 && !Charged(b, op)
    requires d as real < ExactWait(b, op) && Valid(Reserved(b, op))
    ensures !Charged(Reserved(b, op), Later(op, d))
    ensures ExactWait(Reserved(b, op), Later(op, d)) == ExactWait(b, op) - d as real
  {
    hide Times, Over;
    GrantedAfterWait(b, op, d);
    ReadyKeepsValid(b, op);
    var g, w := Ready(b, op), op.weight as real;
    RatesArePositive(g.budget);
    OverShift(w - g.second, SecondRate(g.budget), d as real);
    OverShift(w - g.minute, MinuteRate(g.budget), d as real);
    OverOrder(w - g.second, SecondRate(g.budget), d as real);
    OverOrder(w - g.minute, MinuteRate(g.budget), d as real);
    TimesSign(0.0, SecondRate(g.budget));
    TimesSign(0.0, MinuteRate(g.budget));
    var again := Ready(g, Later(op, d));
    OverOrder(w - again.second, SecondRate(g.budget), 0.0);
    OverOrder(w - again.minute, MinuteRate(g.budget), 0.0);
  }

  /** The second reservation of a lone waiter is charged, or is admitted unpaid; it never waits again. */
  lemma SecondTryIsLast(b: Bucket, op: Op, late: nat)
    requires Valid(b) && op.weight >= 1 && !Charged(b, op)
    ensures var b', op' := Reserved(b, op), Later(op, Delay(b, op) + late);
            && Delay(b', op') == 0
            && (Charged(b', op') <==> late >= 1 || IsWhole(ExactWait(b, op)))
  {
    hide Times, Over, Charged, Reserved, Delay, ExactWait;
    var b', delay, exact := Reserved(b, op), Delay(b, op), ExactWait(b, op);
    ReadyKeepsValid(b, op);
    DelayTruncates(b, op);
    ExactWaitIsPositive(b, op);
    GrantedAfterWait(b, op, delay + late);
    if !Charged(b', Later(op, delay + late)) {
      WaitShrinks(b, op, delay);
      DelayTruncates(b', Later(op, delay));
    } else {
      ChargedHasNoDelay(b', Later(op, delay + late));
    }
  }

  /** A caller alone on its bucket, not cancelled. */
  predicate Undisturbed(turns: seq<Turn>) {
    forall i :: 0 <= i < |turns| ==> turns[i].others == [] && !turns[i].cancelled
  }

  /**
    Without positive jitter, a lone Wait charges at most once and returns within two
    reservations.  Exactly when it charges: at once, or after a sleep whose timer fired at
    all late or whose exact wait is a whole number of nanoseconds; always on the grid.
   */
  lemma LoneWait(b: Bucket, weight: int, now: int, turns: seq<Turn>)
    requires Valid(b) && weight >= 1 && JitterFree(b.budget) && Undisturbed(turns)
    ensures var w := WaitLoop(b, weight, now, turns);
            && w.charges <= 1
            && (|turns| >= 2 ==>
                  && w.outcome == Returned && w.rounds <= 2
                  && (OnGrid(b) ==> w.charges == 1)
                  && (w.charges == 1 <==>
                      || Charged(b, Op(now, weight))
                      || (Delay(b, Op(now, weight)) > 0 && (turns[0].late >= 1 || IsWhole(ExactWait(b, Op(now, weight)))))))
  {
    hide Times, Over, Charged, Reserved, Delay, ExactWait, OnGrid, WaitLoop, Valid;
    if turns == [] {
      NoTurns(b, weight, now);
    } else {
      var op, turn := Op(now, weight), turns[0];
      var b' := Reserved(b, op);
      StaysJitterFree(b, op);
      if OnGrid(b) { GridPays(b, op); }
      if Charged(b, op) { ChargedHasNoDelay(b, op); }
      if Delay(b, op) == 0 {
        LastTurn(b, weight, now, turns);
      } else {
        SecondTryIsLast(b, op, turn.late);
        DelayTruncates(b, op);
        ExactWaitIsPositive(b, op);
        SleepTurn(b, weight, now, turns);
        var op' := Later(op, Delay(b, op) + turn.late);
        StaysJitterFree(b', op');
        if |turns| == 1 { NoTurns(b', weight, op'.now); } else { LastTurn(b', weight, op'.now, turns[1..]); }
      }
    }
  }

  lemma NoTurns(b: Bucket, weight: int, now: int)
    ensures WaitLoop(b, weight, now, []) == Waited(b, Waiting, 0, 0)
  {
  }

  lemma StaysJitterFree(b: Bucket, op: Op)
    requires Valid(b) && op.weight >= 1 && JitterFree(b.budget)
    ensures Valid(Reserved(b, op)) && JitterFree(Reserved(b, op).budget)
  {
    hide Times, Over;
    ReadyKeepsValid(b, op);
  }

  /** A reservation without a delay or jitter ends the loop. */
  lemma LastTurn(b: Bucket, weight: int, now: int, turns: seq<Turn>)
    requires turns != [] && Delay(b, Op(now, weight)) == 0 && JitterFree(Reserved(b, Op(now, weight)).budget)
    ensures WaitLoop(b, weight, now, turns)
            == Waited(Reserved(b, Op(now, weight)), Returned, 1, if Charged(b, Op(now, weight)) then 1 else 0)
  {
    hide Reserved, Charged, Delay, Jitter;
    JitterFreeIff(Reserved(b, Op(now, weight)).budget);
  }

  /** A delayed reservation sleeps and tries again on the bucket as it left it. */
  lemma SleepTurn(b: Bucket, weight: int, now: int, turns: seq<Turn>)
    requires turns != [] && Undisturbed(turns) && Delay(b, Op(now, weight)) > 0 && !Charged(b, Op(now, weight))
    ensures var rest := WaitLoop(Reserved(b, Op(now, weight)), weight, now + Delay(b, Op(now, weight)) + turns[0].late, turns[1..]);
            WaitLoop(b, weight, now, turns) == rest.(rounds := rest.rounds + 1)
  {
  }

  // ---------------------------------------------------------------------- with jitter

  /** No draw gives a positive jitter. */
  predicate JitterFree(b: Budget) { b.jitterMax <= 0 || (b.jitterMax == 1 && b.jitterMin < 1) }

  /** A draw that does. */
  function PositiveDraw(b: Budget): (draw: nat)
    requires !JitterFree(b)
    ensures Jitter(b, draw) > 0
  {
    var span := b.jitterMax - b.jitterMin;
    if span <= 0 then 0
    else
      Modular.ModUnique(span - 1, span, 0, span - 1);
      span - 1
  }

  lemma JitterFreeIff(b: Budget)
    ensures JitterFree(b) <==> forall draw: nat :: Jitter(b, draw) <= 0
  {
    if !JitterFree(b) { assert Jitter(b, PositiveDraw(b)) > 0; }
  }

  /** Bucket and instant of reservation `k`, if the loop gets that far. */
  function StateAt(b: Bucket, weight: int, now: int, turns: seq<Turn>, k: nat): (Bucket, int)
    requires k <= |turns|
    decreases k
  {
    if k == 0 then (b, now)
    else
      var op, turn := Op(now, weight), turns[0];
      StateAt(Run(Reserved(b, op), turn.others), weight, now + Pause(b, op, turn.draw) + turn.late, turns[1..], k - 1)
  }

  /** Reservation `k` has no delay, and its draw no positive jitter. */
  predicate Free(b: Bucket, weight: int, now: int, turns: seq<Turn>, k: nat)
    requires k < |turns|
  {
    var (c, at) := StateAt(b, weight, now, turns, k);
    Delay(c, Op(at, weight)) == 0 && Jitter(b.budget, turns[k].draw) <= 0
  }

  /** How many of the first `k` reservations are charged. */
  function ChargesUpTo(b: Bucket, weight: int, now: int, turns: seq<Turn>, k: nat): nat
    requires k <= |turns|
  {
    if k == 0 then 0
    else
      var (c, at) := StateAt(b, weight, now, turns, k - 1);
      ChargesUpTo(b, weight, now, turns, k - 1) + if Charged(c, Op(at, weight)) then 1 else 0
  }

  /** Reservation `k` is the first free one, and no sleep before it was cancelled. */
  ghost predicate EndsAt(b: Bucket, weight: int, now: int, turns: seq<Turn>, k: nat) {
    && k < |turns| && Free(b, weight, now, turns, k)
    && forall i :: 0 <= i < k ==> !Free(b, weight, now, turns, i) && !turns[i].cancelled
  }

  ghost predicate OthersPositive(turns: seq<Turn>) { forall i :: 0 <= i < |turns| ==> Positive(turns[i].others) }

  /**
    Wait returns exactly at the first reservation that is free of delay and jitter,
    whatever others do meanwhile, and pays for every charged reservation up to there.
   */
  lemma {:induction false} WaitReturnsIff(b: Bucket, weight: int, now: int, turns: seq<Turn>)
    requires Valid(b) && weight >= 1 && OthersPositive(turns)
    ensures var w := WaitLoop(b, weight, now, turns);
            && (w.outcome == Returned ==> w.rounds >= 1 && EndsAt(b, weight, now, turns, w.rounds - 1))
            && (forall k: nat :: EndsAt(b, weight, now, turns, k) ==>
                  w.outcome == Returned && w.rounds == k + 1 && w.charges == ChargesUpTo(b, weight, now, turns, k + 1))
    decreases turns
  {
    hide Times, Over, Charged, Reserved, Delay, Valid, Jitter, Run, Pause;
    if turns != [] {
      var op, turn := Op(now, weight), turns[0];
      var b' := Run(Reserved(b, op), turn.others);
      var now', rest := now + Pause(b, op, turn.draw) + turn.late, turns[1..];
      PauseIff(b, op, turn.draw);
      TurnKeepsBudget(b, op, turn);
      if Pause(b, op, turn.draw) > 0 && !turn.cancelled {
        assert OthersPositive(rest) by { assert forall i :: 0 <= i < |rest| ==> rest[i] == turns[i + 1]; }
        WaitReturnsIff(b', weight, now', rest);
        forall k: nat ensures EndsAt(b, weight, now, turns, k) <==> k >= 1 && EndsAt(b', weight, now', rest, k - 1) {
          EndsLater(b, weight, now, turns, k);
        }
        forall k: nat | 1 <= k <= |turns|
          ensures ChargesUpTo(b, weight, now, turns, k) ==
                  ChargesUpTo(b', weight, now', rest, k - 1) + if Charged(b, op) then 1 else 0
        {
          ChargesLater(b, weight, now, turns, k - 1);
        }
      }
    }
  }

  /** However it ends, Wait has paid for the charged reservations it made; a cancelled one ends at a cancelled sleep. */
  lemma {:induction false} WaitAccounts(b: Bucket, weight: int, now: int, turns: seq<Turn>)
    ensures var w := WaitLoop(b, weight, now, turns);
            && w.rounds <= |turns| && w.charges == ChargesUpTo(b, weight, now, turns, w.rounds)
            && (w.outcome == Cancelled ==> w.rounds >= 1 && turns[w.rounds - 1].cancelled)
            && (w.outcome == Waiting ==> w.rounds == |turns|)
    decreases turns
  {
    hide Charged, Reserved, Run, Pause, ChargesUpTo, StateAt;
    NoCharges(b, weight, now, turns);
    if turns != [] {
      var op, turn := Op(now, weight), turns[0];
      var b', now' := Run(Reserved(b, op), turn.others), now + Pause(b, op, turn.draw) + turn.late;
      NoCharges(b', weight, now', turns[1..]);
      ChargesLater(b, weight, now, turns, 0);
      if Pause(b, op, turn.draw) > 0 && !turn.cancelled {
        WaitAccounts(b', weight, now', turns[1..]);
        ChargesLater(b, weight, now, turns, WaitLoop(b', weight, now', turns[1..]).rounds);
      }
    }
  }

  lemma NoCharges(b: Bucket, weight: int, now: int, turns: seq<Turn>)
    ensures ChargesUpTo(b, weight, now, turns, 0) == 0
  {
  }

  lemma DelayIsNatural(b: Bucket, op: Op)
    requires TokenBucket.Valid(b) && op.weight >= 1
    ensures Delay(b, op) >= 0
  {
    hide Times, Over, Charged, Reserved, Delay;
    if Charged(b, op) { ChargedHasNoDelay(b, op); } else { DelayTruncates(b, op); ExactWaitIsPositive(b, op); }
  }

  /** Every jitter from the smallest up to but not including the largest can be drawn. */
  lemma AnyJitterIsDrawn(b: Budget, jitter: int)
    requires 0 < b.jitterMax && b.jitterMin <= jitter < b.jitterMax
    ensures jitter - b.jitterMin >= 0 && Jitter(b, jitter - b.jitterMin) == jitter
  {
    Modular.ModUnique(jitter - b.jitterMin, b.jitterMax - b.jitterMin, 0, jitter - b.jitterMin);
  }

  /** The loop goes on exactly when there is a delay or a positive jitter. */
  lemma PauseIff(b: Bucket, op: Op, draw: nat)
    requires Valid(b) && op.weight >= 1
    ensures Pause(b, op, draw) <= 0 <==> Delay(b, op) == 0 && Jitter(b.budget, draw) <= 0
  {
    hide Times, Over, Charged, Reserved, Delay, Jitter;
    ReadyKeepsValid(b, op);
    SameJitter(b.budget, Reserved(b, op).budget, draw);
    if Charged(b, op) { ChargedHasNoDelay(b, op); } else { DelayTruncates(b, op); ExactWaitIsPositive(b, op); }
  }

  lemma SameJitter(b: Budget, c: Budget, draw: nat)
    requires c.jitterMin == b.jitterMin && c.jitterMax == b.jitterMax
    ensures Jitter(b, draw) == Jitter(c, draw)
  {
  }

  lemma TurnKeepsBudget(b: Bucket, op: Op, turn: Turn)
    requires Valid(b) && op.weight >= 1 && Positive(turn.others)
    ensures var b' := Run(Reserved(b, op), turn.others);
            Valid(b') && b'.budget.jitterMin == b.budget.jitterMin && b'.budget.jitterMax == b.budget.jitterMax
  {
    hide Times, Over, Charged, Reserved, Run;
    ReadyKeepsValid(b, op);
    RunSpends(Reserved(b, op), turn.others);
  }

  lemma EndsLater(b: Bucket, weight: int, now: int, turns: seq<Turn>, k: nat)
    requires turns != [] && !Free(b, weight, now, turns, 0) && !turns[0].cancelled
    requires var b' := Run(Reserved(b, Op(now, weight)), turns[0].others);
             b'.budget.jitterMin == b.budget.jitterMin && b'.budget.jitterMax == b.budget.jitterMax
    ensures var op, turn := Op(now, weight), turns[0];
            var b', now' := Run(Reserved(b, op), turn.others), now + Pause(b, op, turn.draw) + turn.late;
            EndsAt(b, weight, now, turns, k) <==> k >= 1 && EndsAt(b', weight, now', turns[1..], k - 1)
  {
    hide Charged, Reserved, Delay, Run, Jitter, Pause;
    var op, turn, rest := Op(now, weight), turns[0], turns[1..];
    var b', now' := Run(Reserved(b, op), turn.others), now + Pause(b, op, turn.draw) + turn.late;
    forall i: nat | i < |rest| ensures Free(b, weight, now, turns, i + 1) <==> Free(b', weight, now', rest, i) {
      SameJitter(b.budget, b'.budget, rest[i].draw);
    }
    if EndsAt(b, weight, now, turns, k) {
      assert k >= 1;
      forall i | 0 <= i < k - 1 ensures !Free(b', weight, now', rest, i) && !rest[i].cancelled {
        assert !Free(b, weight, now, turns, i + 1) && turns[i + 1] == rest[i];
      }
    }
    if k >= 1 && EndsAt(b', weight, now', rest, k - 1) {
      forall i | 0 <= i < k ensures !Free(b, weight, now, turns, i) && !turns[i].cancelled {
        if i >= 1 { assert !Free(b', weight, now', rest, i - 1) && turns[i] == rest[i - 1]; }
      }
    }
  }

  lemma {:induction false} ChargesLater(b: Bucket, weight: int, now: int, turns: seq<Turn>, k: nat)
    requires turns != [] && k <= |turns| - 1
    ensures var op, turn := Op(now, weight), turns[0];
            var b', now' := Run(Reserved(b, op), turn.others), now + Pause(b, op, turn.draw) + turn.late;
            ChargesUpTo(b, weight, now, turns, k + 1) ==
              ChargesUpTo(b', weight, now', turns[1..], k) + if Charged(b, op) then 1 else 0
  {
    hide Charged, Reserved, Run, Pause;
    if k > 0 { ChargesLater(b, weight, now, turns, k - 1); }
  }

  // What a budget's jitter setting means for every caller.

  /** No caller ever returns, whatever the bucket, the draws and the other callers. */
  ghost predicate NeverReturns(budget: Budget) {
    forall b: Bucket, weight: int, now: int, turns: seq<Turn> ::
      Valid(b) && b.budget == budget && weight >= 1 && OthersPositive(turns) ==> WaitLoop(b, weight, now, turns).outcome != Returned
  }

  /** No lone caller ever pays twice. */
  ghost predicate PaysOnce(budget: Budget) {
    forall b: Bucket, weight: int, now: int, turns: seq<Turn> ::
      Valid(b) && b.budget == budget && weight >= 1 && Undisturbed(turns) ==> WaitLoop(b, weight, now, turns).charges <= 1
  }

  /**
    As long as every draw gives a positive jitter, Wait does not return: each success
    pauses and reserves again.  With jitterMin 0 these are the draws that are no multiple
    of jitterMax.
   */
  lemma PositiveDrawsNeverReturn(b: Bucket, weight: int, now: int, turns: seq<Turn>)
    requires Valid(b) && weight >= 1 && OthersPositive(turns)
    requires forall i :: 0 <= i < |turns| ==> Jitter(b.budget, turns[i].draw) > 0
    ensures WaitLoop(b, weight, now, turns).outcome != Returned
  {
    hide WaitLoop, StateAt, Jitter;
    WaitReturnsIff(b, weight, now, turns);
  }

  /** Nobody returns exactly when the smallest jitter is positive. */
  lemma NeverReturnsIff(budget: Budget)
    requires ValidBudget(budget)
    ensures NeverReturns(budget) <==> 0 < budget.jitterMin && 0 < budget.jitterMax
  {
    hide WaitLoop;
    if 0 < budget.jitterMin && 0 < budget.jitterMax {
      forall b: Bucket, weight: int, now: int, turns: seq<Turn>
        | Valid(b) && b.budget == budget && weight >= 1 && OthersPositive(turns)
        ensures WaitLoop(b, weight, now, turns).outcome != Returned
      {
        PositiveDrawsNeverReturn(b, weight, now, turns);
      }
    } else {
      var b, turns := NewBucket(budget, 0), [Turn(0, 0, false, [])];
      FullBucketCharges(b, 0);
      assert Free(b, 1, 0, turns, 0);
      WaitReturnsIff(b, 1, 0, turns);
      assert EndsAt(b, 1, 0, turns, 0);
    }
  }

  lemma FullBucketCharges(b: Bucket, now: int)
    requires Valid(b) && b.second >= 1.0 && b.minute >= 1.0 && b.lastRefill == now
    ensures Charged(b, Op(now, 1)) && Delay(b, Op(now, 1)) == 0
  {
  }

  /** Time enough to refill one token at both rates. */
  function RefillTime(b: Budget): (n: nat)
    requires ValidBudget(b)
  {
    PeriodTimesRate(b);
    Max(SecondPeriod(b).Floor, MinutePeriod(b).Floor) + 1
  }

  lemma RefillsOne(b: Bucket, now: int)
    requires Valid(b) && b.lastRefill + RefillTime(b.budget) <= now
    ensures Charged(b, Op(now, 1))
  {
    hide Times, Over;
    var elapsed := (now - b.lastRefill) as real;
    PeriodTimesRate(b.budget);
    TimesAdd(elapsed, SecondPeriod(b.budget), SecondRate(b.budget));
    TimesAdd(elapsed, MinutePeriod(b.budget), MinuteRate(b.budget));
    TimesSign(elapsed - SecondPeriod(b.budget), SecondRate(b.budget));
    TimesSign(elapsed - MinutePeriod(b.budget), MinuteRate(b.budget));
  }

  /** A lone caller that keeps drawing a positive jitter, with timers late enough, pays at every turn. */
  lemma {:induction false} JitterChargesEveryTurn(b: Bucket, now: int, draw: nat, n: nat)
    requires Valid(b) && Jitter(b.budget, draw) > 0 && b.lastRefill + RefillTime(b.budget) <= now
    ensures WaitLoop(b, 1, now, seq(n, _ => Turn(draw, RefillTime(b.budget), false, []))).charges == n
    decreases n
  {
    hide Times, Over, Charged, Reserved, Delay, Jitter, RefillTime;
    if n > 0 {
      var turn, op := Turn(draw, RefillTime(b.budget), false, []), Op(now, 1);
      var turns, b' := seq(n, _ => turn), Reserved(b, op);
      assert turns[1..] == seq(n - 1, _ => turn);
      RefillsOne(b, now);
      ReadyKeepsValid(b, op);
      assert b'.budget == b.budget;
      PauseIff(b, op, draw);
      assert Run(b', []) == b';
      JitterChargesEveryTurn(b', now + Pause(b, op, draw) + turn.late, draw, n - 1);
    }
  }

  /** Every lone Wait pays at most once exactly when no draw gives a positive jitter. */
  lemma PaysOnceIff(budget: Budget)
    requires ValidBudget(budget)
    ensures PaysOnce(budget) <==> JitterFree(budget)
  {
    hide WaitLoop, JitterFree, RefillTime;
    if JitterFree(budget) {
      forall b: Bucket, weight: int, now: int, turns: seq<Turn> | Valid(b) && b.budget == budget && weight >= 1 && Undisturbed(turns)
        ensures WaitLoop(b, weight, now, turns).charges <= 1
      {
        LoneWait(b, weight, now, turns);
      }
    } else {
      var b, draw := NewBucket(budget, 0), PositiveDraw(budget);
      var turns := seq(2, _ => Turn(draw, RefillTime(budget), false, []));
      JitterChargesEveryTurn(b, RefillTime(budget), draw, 2);
      assert Undisturbed(turns);
    }
  }

  // -------------------------------------------------------------------- the limiter

  function Normalize(exchange: string): string { Lower(Trim(exchange)) }

  class Limiter {
    var buckets: map<string, Bucket>

    ghost predicate Valid()
      reads this
    {
      forall e :: e in buckets ==> TokenBucket.Valid(buckets[e])
    }

    constructor ()
      ensures Valid() && buckets == map[]
    {
      buckets := map[];
    }

    method Configure(exchange: string, budget: Budget, now: int) returns (r: Result<(), string>)
      requires Valid()
      modifies this
      ensures Valid()
      ensures r.Ok? <==> Normalize(exchange) != "" && budget.perSecond > 0.0
      ensures r.Ok? ==> buckets == old(buckets)[Normalize(exchange) := NewBucket(Normalized(budget), now)]
      ensures r.Err? ==> buckets == old(buckets)
    {
      var name := Normalize(exchange);
      if name == "" {
        return Err("exchange is required");
      }
      if budget.perSecond <= 0.0 {
        return Err("requests per second must be greater than 0");
      }
      buckets := buckets[name := NewBucket(Normalized(budget), now)];
      return Ok(());
    }

    /** One reservation: the delay and the jitter, or an error for an exchange without a budget. */
    method Reserve(exchange: string, now: int, weight: int, draw: nat) returns (r: Result<(int, int), string>)
      requires Valid() && weight >= 1
      modifies this
      ensures Valid()
      ensures exchange !in old(buckets) <==> r.Err?
      ensures r.Err? ==> buckets == old(buckets)
      ensures r.Ok? ==>
        var b, op := old(buckets)[exchange], Op(now, weight);
        && buckets == old(buckets)[exchange := Reserved(b, op)]
        && r.value.0 == Delay(b, op)
        && r.value.0 + r.value.1 == Pause(b, op, draw)
        && (r.value.0 > 0 || b.budget.jitterMax <= 0 ==> r.value.1 == 0)
        && (r.value.0 == 0 && 0 < b.budget.jitterMax && b.budget.jitterMin < b.budget.jitterMax ==>
              b.budget.jitterMin <= r.value.1 < b.budget.jitterMax)
    {
      if exchange !in buckets {
        return Err("rate limit budget is not configured");
      }
      var b, op := buckets[exchange], Op(now, weight);
      ReadyKeepsValid(b, op);
      DelayIsNatural(b, op);
      var delay := Delay(b, op);
      buckets := buckets[exchange := Reserved(b, op)];
      var jitter := if delay == 0 then Jitter(buckets[exchange].budget, draw) else 0;
      return Ok((delay, jitter));
    }

    /**
      Wait, driven by `turns`.  Weights below one count as one.  The result is that of
      WaitLoop on the exchange's bucket; other exchanges are untouched.
     */
    method Wait(exchange: string, weight: int, start: int, turns: seq<Turn>) returns (r: Result<Outcome, string>)
      requires Valid() && OthersPositive(turns)
      modifies this
      ensures Valid()
      ensures r.Err? <==> Normalize(exchange) == "" || Normalize(exchange) !in old(buckets)
      ensures r.Err? ==> buckets == old(buckets)
      ensures r.Ok? ==>
        var w := WaitLoop(old(buckets)[Normalize(exchange)], if weight <= 0 then 1 else weight, start, turns);
        r.value == w.outcome && buckets == old(buckets)[Normalize(exchange) := w.bucket]
    {
      hide Times, Over, Charged, Reserved, Delay, Pause, Run;
      var need := if weight <= 0 then 1 else weight;
      var name := Normalize(exchange);
      if name == "" {
        return Err("exchange is required");
      }
      if name !in buckets {
        return Err("rate limit budget is not configured");
      }
      var now, i := start, 0;
      ghost var all := WaitLoop(buckets[name], need, start, turns);
      while i < |turns|
        invariant 0 <= i <= |turns| && Valid() && name in buckets
        invariant buckets == old(buckets)[name := buckets[name]]
        invariant WaitLoop(buckets[name], need, now, turns[i..]).outcome == all.outcome
        invariant WaitLoop(buckets[name], need, now, turns[i..]).bucket == all.bucket
      {
        var turn := turns[i];
        assert turns[i..][0] == turn && turns[i..][1..] == turns[i + 1..];
        var res := Reserve(name, now, need, turn.draw);
        var pause := res.value.0 + res.value.1;
        if pause <= 0 {
          return Ok(Returned);
        }
        if turn.cancelled {
          return Ok(Cancelled);
        }
        RunSpends(buckets[name], turn.others);
        buckets := buckets[name := Run(buckets[name], turn.others)];
        now := now + pause + turn.late;
        i := i + 1;
      }
      return Ok(Waiting);
    }
  }
}
