/**
  Retention across runs: a later rollup recomputes a candle from the rows that are left,
  so a candle is safe as long as no run deletes some of its rows and keeps others.  Which
  rows a run deletes is what the capped, oldest-first loop of internal/retention/engine.go
  leaves the database to choose.
 */
module RetentionRuns {
  import opened Wrappers
  import opened Rollup
  import opened RetentionPolicy
  import opened RetentionEngine
  import Partitions
  import Modular

  /** No candle has a deleted row of the interval and a closed one that is left. */
  ghost predicate Unsplit(t: Table, gone: set<Key>, interval: string, size: int)
    requires size > 0
  {
    forall j, k :: j in t && j !in gone && j.interval == interval && t[j].closed && k in gone && k.interval == interval ==>
      !SameCandle(j, k, size)
  }

  /** The older rows, and those no newer. */
  function OlderThan(rows: set<Key>, k: Key): set<Key> { set r | r in rows && r.openTime < k.openTime }
  function NoNewerThan(rows: set<Key>, k: Key): set<Key> { set r | r in rows && r.openTime <= k.openTime }

  /**
    Two rows of one candle between which the run can stop: fewer rows than the cap are
    older than the first, and the second is past the cutoff or past the cap.
   */
  ghost predicate AtRisk(t: Table, p: Policy, cutoff: int, cap: int, size: int, k: Key, j: Key)
    requires size > 0
  {
    var rows := Deletable(t, p, cutoff);
    && k in rows && k.interval == p.intervalValue && j in t && t[j].closed && j.interval == p.intervalValue
    && k.openTime < j.openTime && SameCandle(j, k, size)
    && |OlderThan(rows, k)| < cap
    && (cutoff <= j.openTime || cap < |NoNewerThan(rows, j)|)
  }

  /** Some choice of the database among the oldest rows splits a candle. */
  ghost predicate CanSplit(t: Table, p: Policy, cutoff: int, cap: int, size: int)
    requires size > 0
  {
    exists gone :: Oldest(Deletable(t, p, cutoff), gone, cap) && !Unsplit(t, gone, p.intervalValue, size)
  }

  /**
    Exactly when a run can split a candle: there are two rows at risk, which the counts
    before the run tell.
   */
  lemma CanSplitIff(t: Table, p: Policy, cutoff: int, cap: int, size: int)
    requires size > 0
    ensures CanSplit(t, p, cutoff, cap, size) <==> exists k, j :: AtRisk(t, p, cutoff, cap, size, k, j)
  {
    hide SameCandle, Oldest, Deletable;
    if CanSplit(t, p, cutoff, cap, size) {
      var gone: set<Key> :| Oldest(Deletable(t, p, cutoff), gone, cap) && !Unsplit(t, gone, p.intervalValue, size);
      var j: Key, k: Key :| j in t && j !in gone && j.interval == p.intervalValue && t[j].closed && k in gone && k.interval == p.intervalValue && SameCandle(j, k, size);
      SplitPairIsAtRisk(t, p, cutoff, cap, size, gone, k, j);
    }
    if k, j :| AtRisk(t, p, cutoff, cap, size, k, j) {
      var gone := SplitAtRisk(t, p, cutoff, cap, size, k, j);
    }
  }

  lemma SplitPairIsAtRisk(t: Table, p: Policy, cutoff: int, cap: int, size: int, gone: set<Key>, k: Key, j: Key)
    requires size > 0 && Oldest(Deletable(t, p, cutoff), gone, cap)
    requires j in t && j !in gone && j.interval == p.intervalValue && t[j].closed && k in gone && k.interval == p.intervalValue && SameCandle(j, k, size)
    ensures AtRisk(t, p, cutoff, cap, size, k, j)
  {
    hide Bucket;
    var rows := Deletable(t, p, cutoff);
    assert j.openTime == k.openTime ==> j == k;
    Smaller(OlderThan(rows, k) + {k}, gone);
    if j in rows { Smaller(gone + {j}, NoNewerThan(rows, j)); Proper(gone, rows, j); }
  }

  lemma Smaller(a: set<Key>, b: set<Key>)
    requires a <= b
    ensures |a| <= |b|
  {
    assert b == a + (b - a);
  }

  lemma Proper(a: set<Key>, b: set<Key>, j: Key)
    requires a <= b && j in b && j !in a
    ensures |a| < |b|
  {
    Smaller(a + {j}, b);
  }

  /** Rows at risk are split by some choice. */
  lemma SplitAtRisk(t: Table, p: Policy, cutoff: int, cap: int, size: int, k: Key, j: Key) returns (gone: set<Key>)
    requires size > 0 && AtRisk(t, p, cutoff, cap, size, k, j)
    ensures Oldest(Deletable(t, p, cutoff), gone, cap) && k in gone && j !in gone
  {
    hide SameCandle;
    var rows := Deletable(t, p, cutoff);
    if cutoff <= j.openTime {
      gone := OldestExists(rows, cap);
      gone := SwapIn(rows, gone, cap, k);
    } else {
      var others := rows - {j};
      assert OlderThan(others, k) == OlderThan(rows, k);
      gone := OldestExists(others, cap);
      gone := SwapIn(others, gone, cap, k);
      LeaveOut(rows, gone, cap, j);
    }
  }

  lemma {:induction false} OldestExists(rows: set<Key>, n: nat) returns (gone: set<Key>)
    ensures Oldest(rows, gone, n)
    decreases n
  {
    if n == 0 || rows == {} {
      gone := {};
    } else {
      var first := FirstRow(rows);
      gone := OldestExists(rows - {first}, n - 1);
      OldestChains(rows, {first}, gone);
      gone := {first} + gone;
    }
  }

  lemma {:induction false} FirstRow(rows: set<Key>) returns (first: Key)
    requires rows != {}
    ensures first in rows && forall k :: k in rows ==> first.openTime <= k.openTime
    decreases rows
  {
    first :| first in rows;
    if rows != {first} {
      assert rows - {first} != {};
      var other := FirstRow(rows - {first});
      if other.openTime < first.openTime { first := other; }
    }
  }

  /** A row that is due can take the place of one just as old. */
  lemma SwapIn(rows: set<Key>, gone: set<Key>, n: int, k: Key) returns (gone': set<Key>)
    requires Oldest(rows, gone, n) && k in rows && |OlderThan(rows, k)| < n
    ensures Oldest(rows, gone', n) && k in gone' && gone' <= gone + {k}
  {
    gone' := gone;
    if k !in gone {
      Proper(gone, rows, k);
      if gone <= OlderThan(rows, k) { Smaller(gone, OlderThan(rows, k)); }
      var g :| g in gone && g !in OlderThan(rows, k);
      gone' := gone - {g} + {k};
      assert |gone'| == |gone|;
    }
  }

  /** With enough rows no newer than `j`, the oldest of the others are the oldest of all. */
  lemma LeaveOut(rows: set<Key>, gone: set<Key>, n: int, j: Key)
    requires j in rows && Oldest(rows - {j}, gone, n) && 0 <= n < |NoNewerThan(rows, j)|
    ensures Oldest(rows, gone, n)
  {
    var due := NoNewerThan(rows, j) - {j};
    Smaller(NoNewerThan(rows, j), rows);
    forall g | g in gone ensures g.openTime <= j.openTime {
      if j.openTime < g.openTime { Smaller(due + {g}, gone); }
    }
  }

  // -------------------------------------------------- what that means for the settings

  /**
    Runs that the cap does not stop: they never split a candle, whatever the table, exactly
    when the cutoff is on a candle boundary.
   */
  lemma UncappedRunsAreSafeIff(p: Policy, cutoff: int, cap: int, size: int)
    requires size > 0 && cap >= 1
    ensures (forall t: Table :: |Deletable(t, p, cutoff)| <= cap ==> !CanSplit(t, p, cutoff, cap, size)) <==> Bucket(cutoff, size) == cutoff
  {
    hide Bucket;
    BucketLaws(cutoff, cutoff, size);
    if Bucket(cutoff, size) == cutoff {
      forall t: Table | |Deletable(t, p, cutoff)| <= cap ensures !CanSplit(t, p, cutoff, cap, size) {
        AlignedUncappedIsSafe(t, p, cutoff, cap, size);
      }
    } else {
      var early, late := Bucket(cutoff, size), cutoff;
      var t := DemoTable(p.intervalValue, early, late);
      var k, j := DemoKey(p.intervalValue, early), DemoKey(p.intervalValue, late);
      assert Deletable(t, p, cutoff) == {k} && OlderThan({k}, k) == {};
      BucketNests(cutoff, size, 1);
      assert AtRisk(t, p, cutoff, cap, size, k, j);
      CanSplitIff(t, p, cutoff, cap, size);
    }
  }

  lemma AlignedUncappedIsSafe(t: Table, p: Policy, cutoff: int, cap: int, size: int)
    requires size > 0 && Bucket(cutoff, size) == cutoff && |Deletable(t, p, cutoff)| <= cap
    ensures !CanSplit(t, p, cutoff, cap, size)
  {
    hide Bucket;
    CanSplitIff(t, p, cutoff, cap, size);
    forall k, j ensures !AtRisk(t, p, cutoff, cap, size, k, j) {
      Smaller(NoNewerThan(Deletable(t, p, cutoff), j), Deletable(t, p, cutoff));
      BucketLaws(k.openTime, k.openTime, size);
      if cutoff <= j.openTime { BucketLaws(cutoff, j.openTime, size); }
    }
  }

  /** One row of each of `n` symbols at one instant. */
  function Crowd(interval: string, at: int, n: nat): set<Key> {
    if n == 0 then {} else Crowd(interval, at, n - 1) + {Key(n, "e", interval, at)}
  }

  lemma {:induction false} CrowdFacts(interval: string, at: int, n: nat)
    ensures |Crowd(interval, at, n)| == n
    ensures forall k :: k in Crowd(interval, at, n) ==> k.interval == interval && k.openTime == at && k.symbolId <= n
    ensures n >= 1 ==> DemoKey(interval, at) in Crowd(interval, at, n)
  {
    if n > 0 { CrowdFacts(interval, at, n - 1); }
  }

  function TableOf(rows: set<Key>): Table { map r | r in rows :: DEMO_CANDLE }

  /** A crowd of `cap` rows and one row more, an instant later in the candle of the first. */
  lemma CrowdIsAtRisk(p: Policy, cutoff: int, cap: nat, size: int, at: int, t: Table)
    requires size > 0 && cap >= 1 && at + 1 < cutoff && Bucket(at, size) == Bucket(at + 1, size)
    requires t == TableOf(Crowd(p.intervalValue, at, cap) + {DemoKey(p.intervalValue, at + 1)})
    ensures |Deletable(t, p, cutoff)| == cap + 1
    ensures AtRisk(t, p, cutoff, cap, size, DemoKey(p.intervalValue, at), DemoKey(p.intervalValue, at + 1))
  {
    hide Bucket, Crowd;
    CrowdFacts(p.intervalValue, at, cap);
    var k, j := DemoKey(p.intervalValue, at), DemoKey(p.intervalValue, at + 1);
    var rows := Crowd(p.intervalValue, at, cap) + {j};
    assert Deletable(t, p, cutoff) == rows;
    assert OlderThan(rows, k) == {} && NoNewerThan(rows, j) == rows;
  }

  /** No cap is safe for every table, wherever the cutoff lies: one row more than it allows is enough. */
  lemma EveryCapCanSplit(p: Policy, cutoff: int, cap: int, size: int)
    requires size >= 2 && cap >= 1
    ensures exists t: Table :: |Deletable(t, p, cutoff)| == cap + 1 && CanSplit(t, p, cutoff, cap, size)
  {
    hide Bucket, Crowd, AtRisk, CanSplit, Deletable, TableOf;
    var at := Bucket(cutoff - size, size);
    BucketLaws(cutoff - size, cutoff - size, size);
    SameBucket(cutoff - size, size);
    var t := TableOf(Crowd(p.intervalValue, at, cap) + {DemoKey(p.intervalValue, at + 1)});
    CrowdIsAtRisk(p, cutoff, cap, size, at, t);
    CanSplitIff(t, p, cutoff, cap, size);
  }

  lemma SameBucket(at: int, size: int)
    requires size >= 2
    ensures Bucket(Bucket(at, size) + 1, size) == Bucket(at, size) == Bucket(Bucket(at, size), size)
  {
    hide Bucket;
    var b := Bucket(at, size);
    BucketNests(at, size, 1);
    BucketLaws(b, b + 1, size);
    BucketLaws(b + 1, b + 1, size);
    BucketIsMultiple(at, size);
    BucketIsMultiple(b + 1, size);
    if Bucket(b + 1, size) != b { Modular.MultiplesApart(b, Bucket(b + 1, size), size); }
  }

  lemma BucketIsMultiple(at: int, size: int)
    requires size > 0
    ensures Bucket(at, size) % size == 0
  {
    Modular.RoundDown(at, size);
  }

  // ------------------------------------------------- the candles a run wrote itself

  /** The candles the rollup of a run writes. */
  function Written(t: Table, p: Policy, spec: Spec, cutoff: int): set<Key>
    requires Size(spec) > 0
  {
    Targets(Eligible(t, p.intervalValue, cutoff), spec.target, Size(spec))
  }

  /** A row can be deleted exactly when fewer rows than the cap are older. */
  lemma CanGoIff(rows: set<Key>, cap: nat, k: Key)
    requires k in rows
    ensures (exists gone :: Oldest(rows, gone, cap) && k in gone) <==> |OlderThan(rows, k)| < cap
  {
    if gone :| Oldest(rows, gone, cap) && k in gone { Smaller(OlderThan(rows, k) + {k}, gone); }
    if |OlderThan(rows, k)| < cap {
      var gone := OldestExists(rows, cap);
      gone := SwapIn(rows, gone, cap, k);
    }
  }

  /** Every candle starts before the cutoff. */
  lemma WrittenIsOld(t: Table, p: Policy, spec: Spec, cutoff: int, tk: Key)
    requires Size(spec) > 0 && tk in Written(t, p, spec, cutoff)
    ensures tk.interval == spec.target && tk.openTime < cutoff
  {
    hide Bucket;
    var k :| k in Eligible(t, p.intervalValue, cutoff) && TargetKey(k, spec.target, Size(spec)) == tk;
    BucketLaws(k.openTime, k.openTime, Size(spec));
  }

  /**
    Exactly when the delete loop keeps all candles that the rollup of the same run wrote:
    the policy filters on the interval, or the cap is reached before the first of them.
   */
  lemma KeepsOwnCandlesIff(t: Table, rolled: Table, p: Policy, spec: Spec, cutoff: int, cap: nat)
    requires p.rollupBeforeDelete && SpecFor(p.intervalValue) == Some(spec) && Size(spec) > 0
    requires AfterRollup(t, p, cutoff) == Some(rolled)
    ensures (forall gone :: Oldest(Deletable(rolled, p, cutoff), gone, cap) ==> Written(t, p, spec, cutoff) <= (rolled - gone).Keys) <==>
            p.intervalColumn != "" || forall tk :: tk in Written(t, p, spec, cutoff) ==> cap <= |OlderThan(Deletable(rolled, p, cutoff), tk)|
  {
    hide Bucket, NewRows, RolledUp, SpecFor, Size, Oldest, OlderThan;
    var rows, written := Deletable(rolled, p, cutoff), Written(t, p, spec, cutoff);
    assert RolledUp(t, p.intervalValue, spec, cutoff) == Some(rolled);
    TargetsDiffer(p.intervalValue);
    UpsertMeaning(t, p.intervalValue, spec, cutoff);
    NewRowsAreClosed(t, Eligible(t, p.intervalValue, cutoff), spec.target, Size(spec));
    forall tk | tk in written
      ensures tk in rolled && (tk in rows <==> p.intervalColumn == "")
      ensures tk in rows ==> ((exists gone :: Oldest(rows, gone, cap) && tk in gone) <==> |OlderThan(rows, tk)| < cap)
    {
      WrittenIsOld(t, p, spec, cutoff, tk);
      if tk in rows { CanGoIff(rows, cap, tk); }
    }
    forall gone | Oldest(rows, gone, cap) ensures gone <= rows { OldestAreRows(rows, gone, cap); }
    if tk :| tk in written && tk in rows && |OlderThan(rows, tk)| < cap {
      var gone :| Oldest(rows, gone, cap) && tk in gone;
      assert tk !in (rolled - gone).Keys;
    }
  }

  /** Over all tables, that is the filter: without it a run can delete what it has just written. */
  lemma OwnCandlesAreSafeIff(p: Policy, spec: Spec, cutoff: int, cap: nat)
    requires p.rollupBeforeDelete && p.tableName == "derivative_klines" && SpecFor(p.intervalValue) == Some(spec) && Size(spec) > 0 && cap >= 1
    ensures (forall t: Table, gone: set<Key> :: KeepsOwn(t, p, spec, cutoff, cap, gone)) <==> p.intervalColumn != ""
  {
    hide Bucket, RolledUp, SpecFor, Size, Oldest, OlderThan, Written;
    if p.intervalColumn != "" {
      forall t: Table, gone: set<Key> ensures KeepsOwn(t, p, spec, cutoff, cap, gone) {
        if AfterRollup(t, p, cutoff).Some? { KeepsOwnCandlesIff(t, AfterRollup(t, p, cutoff).value, p, spec, cutoff, cap); }
      }
    } else {
      var k := DemoKey(p.intervalValue, cutoff - 1);
      OneRowTable(p, spec, cutoff, k);
      var t: Table := map[k := DEMO_CANDLE];
      var rolled := AfterRollup(t, p, cutoff).value;
      KeepsOwnCandlesIff(t, rolled, p, spec, cutoff, cap);
      var gone: set<Key> :| Oldest(Deletable(rolled, p, cutoff), gone, cap) && !(Written(t, p, spec, cutoff) <= (rolled - gone).Keys);
      assert !KeepsOwn(t, p, spec, cutoff, cap, gone);
    }
  }

  ghost predicate KeepsOwn(t: Table, p: Policy, spec: Spec, cutoff: int, cap: nat, gone: set<Key>)
    requires Size(spec) > 0
  {
    match AfterRollup(t, p, cutoff)
    case None => true
    case Some(rolled) => Oldest(Deletable(rolled, p, cutoff), gone, cap) ==> Written(t, p, spec, cutoff) <= (rolled - gone).Keys
  }

  lemma OneRowTable(p: Policy, spec: Spec, cutoff: int, k: Key)
    requires p.rollupBeforeDelete && p.tableName == "derivative_klines" && SpecFor(p.intervalValue) == Some(spec) && Size(spec) > 0
    requires k == DemoKey(p.intervalValue, cutoff - 1) && p.intervalColumn == ""
    ensures var t: Table, tk := map[k := DEMO_CANDLE], TargetKey(k, spec.target, Size(spec));
            var rolled := AfterRollup(t, p, cutoff);
            rolled.Some? && tk in Written(t, p, spec, cutoff) && OlderThan(Deletable(rolled.value, p, cutoff), tk) == {}
  {
    hide Bucket, RolledUp, SpecFor, Size, Fold;
    var t: Table, tk := map[k := DEMO_CANDLE], TargetKey(k, spec.target, Size(spec));
    assert Eligible(t, p.intervalValue, cutoff) == {k};
    OneCandleRollup(t, p.intervalValue, spec, cutoff, tk);
    BucketLaws(k.openTime, k.openTime, Size(spec));
    assert AfterRollup(t, p, cutoff).value.Keys == {k, tk};
  }

  lemma OldestAreRows(rows: set<Key>, gone: set<Key>, cap: int)
    requires Oldest(rows, gone, cap)
    ensures gone <= rows
  {
  }

  /** Dropping partitions keeps them exactly when no dropped range holds the start of one. */
  lemma DropsKeepOwnCandlesIff(rolled: Table, written: set<Key>, drops: seq<Partitions.Partition>)
    requires written <= rolled.Keys
    ensures written <= WithoutRanges(rolled, drops).Keys <==>
            forall tk, d :: tk in written && d in drops ==> !Partitions.InRange(d.range, tk.openTime)
  {
    hide WithoutRanges, Partitions.InRange;
    forall tk | tk in written
      ensures tk in WithoutRanges(rolled, drops) <==> forall d :: d in drops ==> !Partitions.InRange(d.range, tk.openTime)
    {
      DropsExactlyRanges(rolled, drops, tk);
    }
  }

  // ------------------------------------------------------------- from run to run

  /** All rows of the interval are from the cutoff on. */
  ghost predicate ClearedTo(t: Table, interval: string, cutoff: int) {
    forall k :: k in t && k.interval == interval ==> cutoff <= k.openTime
  }

  /** What happens to the table: a run that filters on the interval, or a write by the collectors. */
  datatype Event = Ran(cutoff: int, cap: nat, gone: set<Key>) | Wrote(rows: Table)

  /** A run whose rollup fails leaves the table alone. */
  ghost function After(t: Table, p: Policy, e: Event): Table {
    match e
    case Ran(cutoff, _, gone) =>
      (match AfterRollup(t, p, cutoff) case Some(rolled) => rolled - gone case None => t)
    case Wrote(rows) => t + rows
  }

  ghost function AfterAll(t: Table, p: Policy, es: seq<Event>): Table
    decreases es
  {
    if es == [] then t else AfterAll(After(t, p, es[0]), p, es[1..])
  }

  /** Runs delete the oldest rows up to any cap; writes bring rows from `cleared` on, and leave candle `tk` alone. */
  ghost predicate Happens(t: Table, p: Policy, cleared: int, tk: Key, e: Event) {
    match e
    case Ran(cutoff, cap, gone) =>
      (match AfterRollup(t, p, cutoff) case Some(rolled) => Oldest(Deletable(rolled, p, cutoff), gone, cap) case None => true)
    case Wrote(rows) => tk !in rows && ClearedTo(rows, p.intervalValue, cleared)
  }

  ghost predicate AllHappen(t: Table, p: Policy, cleared: int, tk: Key, es: seq<Event>)
    decreases es
  {
    es == [] || (Happens(t, p, cleared, tk, es[0]) && AllHappen(After(t, p, es[0]), p, cleared, tk, es[1..]))
  }

  /** A policy that rolls klines up and then deletes rows of its interval. */
  ghost predicate RollsUp(p: Policy, spec: Spec) {
    && p.intervalColumn != "" && p.rollupBeforeDelete && p.tableName == "derivative_klines"
    && SpecFor(p.intervalValue) == Some(spec) && Size(spec) > 0
  }

  /** The candle, of `size`, ends by `end`. */
  predicate Ends(tk: Key, size: int, end: int)
    requires size > 0
  {
    Bucket(tk.openTime, size) == tk.openTime && tk.openTime + size <= end
  }

  lemma EventKeepsCandle(t: Table, p: Policy, spec: Spec, cleared: int, tk: Key, e: Event)
    requires RollsUp(p, spec) && ClearedTo(t, p.intervalValue, cleared) && Happens(t, p, cleared, tk, e)
    requires tk in t && tk.interval == spec.target && Ends(tk, Size(spec), cleared)
    ensures var t' := After(t, p, e); ClearedTo(t', p.intervalValue, cleared) && tk in t' && t'[tk] == t[tk]
  {
    hide Bucket, RolledUp, SpecFor, Size, NewRows, Oldest;
    TargetsDiffer(p.intervalValue);
    if e.Ran? && AfterRollup(t, p, e.cutoff).Some? {
      var rolled := AfterRollup(t, p, e.cutoff).value;
      assert RolledUp(t, p.intervalValue, spec, e.cutoff) == Some(rolled);
      UpsertMeaning(t, p.intervalValue, spec, e.cutoff);
      NewRowsAreClosed(t, Eligible(t, p.intervalValue, e.cutoff), spec.target, Size(spec));
      forall j | j in Eligible(t, p.intervalValue, e.cutoff) ensures !SameCandle(j, tk, Size(spec)) {
        BucketLaws(j.openTime, j.openTime, Size(spec));
      }
      UnsplitCandlesSurvive(t, p.intervalValue, spec, e.cutoff, tk);
      OldestAreRows(Deletable(rolled, p, e.cutoff), e.gone, e.cap);
    }
  }

  /** Once its interval is cleared past its end, a candle is final, whatever runs and writes of newer rows follow. */
  lemma {:induction false} ClearedCandlesAreFinal(t: Table, p: Policy, spec: Spec, cleared: int, tk: Key, es: seq<Event>)
    requires RollsUp(p, spec) && ClearedTo(t, p.intervalValue, cleared) && AllHappen(t, p, cleared, tk, es)
    requires tk in t && tk.interval == spec.target && Ends(tk, Size(spec), cleared)
    ensures tk in AfterAll(t, p, es) && AfterAll(t, p, es)[tk] == t[tk]
    decreases es
  {
    hide After, Happens, ClearedTo, Ends;
    if es != [] {
      EventKeepsCandle(t, p, spec, cleared, tk, es[0]);
      ClearedCandlesAreFinal(After(t, p, es[0]), p, spec, cleared, tk, es[1..]);
    }
  }

  /** A run that the cap does not stop clears its interval up to the cutoff. */
  lemma UncappedRunClears(rolled: Table, p: Policy, cutoff: int, cap: int, gone: set<Key>)
    requires p.intervalColumn != "" && Oldest(Deletable(rolled, p, cutoff), gone, cap) && |Deletable(rolled, p, cutoff)| <= cap
    ensures ClearedTo(rolled - gone, p.intervalValue, cutoff)
  {
    var rows := Deletable(rolled, p, cutoff);
    if k :| k in rows && k !in gone { Proper(gone, rows, k); }
  }

  /** Under an aligned cutoff every candle a run wrote ends by it. */
  lemma WrittenEnds(t: Table, p: Policy, spec: Spec, cutoff: int, tk: Key)
    requires Size(spec) > 0 && tk in Written(t, p, spec, cutoff) && Bucket(cutoff, Size(spec)) == cutoff
    ensures Ends(tk, Size(spec), cutoff)
  {
    hide Bucket, Size;
    var k :| k in Eligible(t, p.intervalValue, cutoff) && TargetKey(k, spec.target, Size(spec)) == tk;
    BucketNests(k.openTime, Size(spec), 1);
    WrittenIsOld(t, p, spec, cutoff, tk);
    BucketIsMultiple(k.openTime, Size(spec));
    BucketIsMultiple(cutoff, Size(spec));
    Modular.MultiplesApart(tk.openTime, cutoff, Size(spec));
  }

  /** The candle `tk` that a run wrote keeps its value through the events that follow the run. */
  ghost predicate KeepsValue(p: Policy, spec: Spec, cutoff: int, cap: nat, t: Table, gone: set<Key>, es: seq<Event>, tk: Key)
    requires Size(spec) > 0
  {
    match AfterRollup(t, p, cutoff)
    case None => true
    case Some(rolled) =>
      && Oldest(Deletable(rolled, p, cutoff), gone, cap) && |Deletable(rolled, p, cutoff)| <= cap
      && tk in Written(t, p, spec, cutoff) && AllHappen(rolled - gone, p, cutoff, tk, es)
      ==> tk in rolled && tk in AfterAll(rolled - gone, p, es) && AfterAll(rolled - gone, p, es)[tk] == rolled[tk]
  }

  /**
    On values, over whole histories: runs that the cap does not stop keep every candle they
    wrote for good, through all later runs of the policy with any cutoffs and caps and all
    writes of newer rows, exactly when the cutoff is on a candle boundary.
   */
  lemma ValuesAreKeptIff(p: Policy, spec: Spec, cutoff: int, cap: nat)
    requires RollsUp(p, spec) && cap >= 1
    ensures (forall t: Table, gone: set<Key>, es: seq<Event>, tk: Key :: KeepsValue(p, spec, cutoff, cap, t, gone, es, tk)) <==>
            Bucket(cutoff, Size(spec)) == cutoff
  {
    hide Bucket, RolledUp, SpecFor, Size, KeepsValue;
    if Bucket(cutoff, Size(spec)) == cutoff {
      forall t: Table, gone: set<Key>, es: seq<Event>, tk: Key ensures KeepsValue(p, spec, cutoff, cap, t, gone, es, tk) {
        AlignedRunKeepsValue(p, spec, cutoff, cap, t, gone, es, tk);
      }
    } else {
      MisalignedRunLosesValue(p, spec, cutoff, cap);
    }
  }

  lemma AlignedRunKeepsValue(p: Policy, spec: Spec, cutoff: int, cap: nat, t: Table, gone: set<Key>, es: seq<Event>, tk: Key)
    requires RollsUp(p, spec) && Bucket(cutoff, Size(spec)) == cutoff
    ensures KeepsValue(p, spec, cutoff, cap, t, gone, es, tk)
  {
    hide Bucket, RolledUp, SpecFor, Size, NewRows, Oldest, AllHappen, AfterAll, Ends;
    if AfterRollup(t, p, cutoff).Some? && tk in Written(t, p, spec, cutoff) {
      var rolled := AfterRollup(t, p, cutoff).value;
      assert RolledUp(t, p.intervalValue, spec, cutoff) == Some(rolled);
      TargetsDiffer(p.intervalValue);
      UpsertMeaning(t, p.intervalValue, spec, cutoff);
      NewRowsAreClosed(t, Eligible(t, p.intervalValue, cutoff), spec.target, Size(spec));
      WrittenIsOld(t, p, spec, cutoff, tk);
      WrittenEnds(t, p, spec, cutoff, tk);
      var rows := Deletable(rolled, p, cutoff);
      if Oldest(rows, gone, cap) && |rows| <= cap && AllHappen(rolled - gone, p, cutoff, tk, es) {
        OldestAreRows(rows, gone, cap);
        UncappedRunClears(rolled, p, cutoff, cap, gone);
        ClearedCandlesAreFinal(rolled - gone, p, spec, cutoff, tk, es);
      }
    }
  }

  lemma MisalignedRunLosesValue(p: Policy, spec: Spec, cutoff: int, cap: nat)
    requires RollsUp(p, spec) && cap >= 1 && Bucket(cutoff, Size(spec)) != cutoff
    ensures exists t: Table, gone: set<Key>, es: seq<Event>, tk: Key :: !KeepsValue(p, spec, cutoff, cap, t, gone, es, tk)
  {
    hide Bucket, RolledUp, SpecFor, Size, NewRows;
    var size, early, late := Size(spec), Bucket(cutoff, Size(spec)), cutoff;
    BucketLaws(cutoff, cutoff, size);
    BucketNests(cutoff, size, 1);
    SplitRunLosesRows(p, spec, early, late, cutoff, cap, cutoff + 1);
    var t, k := DemoTable(p.intervalValue, early, late), DemoKey(p.intervalValue, early);
    var rolled, tk := AfterRollup(t, p, cutoff).value, TargetKey(k, spec.target, size);
    assert k in Eligible(t, p.intervalValue, cutoff);
    SmallestRunIsUncapped(p, spec, early, late, cutoff, rolled);
    var e := Ran(cutoff + 1, 0, {});
    assert [e][1..] == [];
    var left := rolled - {k};
    assert After(left, p, e) == RolledUp(left, p.intervalValue, spec, cutoff + 1).value - {};
    assert AfterAll(left, p, [e]) == After(left, p, e);
    assert AllHappen(left, p, cutoff, tk, [e]);
    assert !KeepsValue(p, spec, cutoff, cap, t, {k}, [e], tk);
  }

  lemma SmallestRunIsUncapped(p: Policy, spec: Spec, early: int, late: int, cutoff: int, rolled: Table)
    requires RollsUp(p, spec) && early < cutoff <= late
    requires AfterRollup(DemoTable(p.intervalValue, early, late), p, cutoff) == Some(rolled)
    ensures |Deletable(rolled, p, cutoff)| <= 1
  {
    hide Bucket, RolledUp, SpecFor, Size, NewRows;
    var t := DemoTable(p.intervalValue, early, late);
    TargetsDiffer(p.intervalValue);
    UpsertMeaning(t, p.intervalValue, spec, cutoff);
    NewRowsAreClosed(t, Eligible(t, p.intervalValue, cutoff), spec.target, Size(spec));
    Smaller(Deletable(rolled, p, cutoff), {DemoKey(p.intervalValue, early)});
  }

  /**
    Table by table: after a run in which no rows are at risk, the next rollup, with any
    cutoff, leaves every candle of a deleted row that the run did not delete as it was.
   */
  lemma SafeRunKeepsCandles(t: Table, rolled: Table, p: Policy, spec: Spec, cutoff: int, cap: int, gone: set<Key>, later: int, d: Key)
    requires p.rollupBeforeDelete && SpecFor(p.intervalValue) == Some(spec) && Size(spec) > 0
    requires AfterRollup(t, p, cutoff) == Some(rolled) && Oldest(Deletable(rolled, p, cutoff), gone, cap)
    requires forall k, j :: !AtRisk(rolled, p, cutoff, cap, Size(spec), k, j)
    requires d in gone && d.interval == p.intervalValue && d in t && t[d].closed && TargetKey(d, spec.target, Size(spec)) !in gone
    requires RolledUp(rolled - gone, p.intervalValue, spec, later).Some?
    ensures var tk := TargetKey(d, spec.target, Size(spec));
            var t' := RolledUp(rolled - gone, p.intervalValue, spec, later).value;
            tk in rolled && tk in t' && t'[tk] == rolled[tk]
  {
    hide Bucket, Fold, RolledUp, SpecFor, Size, AtRisk, AfterRollup, Oldest, SameCandle;
    RemovedRowsWereCounted(t, rolled, p, spec, cutoff, gone, cap, d);
    CanSplitIff(rolled, p, cutoff, cap, Size(spec));
    assert Unsplit(rolled, gone, p.intervalValue, Size(spec));
    UnsplitCandlesSurvive(rolled - gone, p.intervalValue, spec, later, d);
  }

  /**
    Rows at risk do lose: for every rollup of the table and any two rows of one candle that
    a run separates, by a cutoff between them or by a cap of one, the candle has high 2
    after the run and high 1 after the next rollup.
   */
  lemma SplitRunLosesRows(p: Policy, spec: Spec, early: int, late: int, cutoff: int, cap: int, later: int)
    requires p.intervalColumn != "" && p.rollupBeforeDelete && p.tableName == "derivative_klines"
    requires SpecFor(p.intervalValue) == Some(spec) && Size(spec) > 0
    requires early < late && Bucket(early, Size(spec)) == Bucket(late, Size(spec)) && early < cutoff && late < later
    requires cap >= 1 && (cutoff <= late || cap == 1)
    ensures var k, tk := DemoKey(p.intervalValue, early), TargetKey(DemoKey(p.intervalValue, early), spec.target, Size(spec));
            var rolled := AfterRollup(DemoTable(p.intervalValue, early, late), p, cutoff);
            && rolled.Some? && Oldest(Deletable(rolled.value, p, cutoff), {k}, cap)
            && tk in rolled.value && rolled.value[tk].high == 2.0
            && var next := RolledUp(rolled.value - {k}, p.intervalValue, spec, later);
               next.Some? && tk in next.value && next.value[tk].high == 1.0
  {
    hide Bucket, Fold, RolledUp, Size, SpecFor, Deletable, Oldest;
    SplitBucketLosesRows(p.intervalValue, spec, early, late, cutoff, later);
    DemoRunDeletes(p, spec, early, late, cutoff, cap);
  }

  /** Of the two rows, the run deletes the early one. */
  lemma DemoRunDeletes(p: Policy, spec: Spec, early: int, late: int, cutoff: int, cap: int)
    requires p.intervalColumn != "" && SpecFor(p.intervalValue) == Some(spec) && Size(spec) > 0
    requires early < late && early < cutoff && cap >= 1 && (cutoff <= late || cap == 1)
    requires RolledUp(DemoTable(p.intervalValue, early, late), p.intervalValue, spec, cutoff).Some?
    ensures var rolled := RolledUp(DemoTable(p.intervalValue, early, late), p.intervalValue, spec, cutoff).value;
            Oldest(Deletable(rolled, p, cutoff), {DemoKey(p.intervalValue, early)}, cap)
  {
    hide Bucket, Fold, RolledUp, Size, NewRows, SpecFor;
    var t, k, j := DemoTable(p.intervalValue, early, late), DemoKey(p.intervalValue, early), DemoKey(p.intervalValue, late);
    UpsertMeaning(t, p.intervalValue, spec, cutoff);
    NewRowsAreClosed(t, Eligible(t, p.intervalValue, cutoff), spec.target, Size(spec));
    TargetsDiffer(p.intervalValue);
    var rolled := RolledUp(t, p.intervalValue, spec, cutoff).value;
    assert Deletable(rolled, p, cutoff) == if late < cutoff then {k, j} else {k};
  }
}
