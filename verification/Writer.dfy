/**
  RepositoryWriter.Write (internal/collectors/core/writer.go): filter a normalised result,
  then send what was kept, and what is derived from it, to the repositories, each of which
  validates every item again and gives up on the first invalid one.
 */
module Writer {
  import opened Wrappers
  import opened Numbers
  import opened Text
  import opened Quality
  import opened Decimal
  import Modular

  // ------------------------------------------------------------ derived snapshots

  predicate AllOf(items: seq<Item>, kind: Kind) { forall i :: 0 <= i < |items| ==> KindOf(items[i]) == kind }

  ghost predicate AllValid(items: seq<Item>, history: bool) { forall i :: 0 <= i < |items| ==> Valid(items[i], history) }

  function OpenInterestOf(s: Item): seq<Item>
    requires s.MarketSnapshot?
  {
    if s.openInterest.None? then [] else [OpenInterest(s.meta, s.at, "", s.openInterest.value, None)]
  }

  function FundingOf(s: Item): seq<Item>
    requires s.MarketSnapshot?
  {
    if s.fundingRate.None? then [] else [FundingSnapshot(s.meta, s.at, s.fundingRate.value, s.markPrice, s.indexPrice)]
  }

  function DerivedOpenInterest(snapshots: seq<Item>): seq<Item>
    requires AllOf(snapshots, MarketSnapshots)
  {
    if snapshots == [] then [] else DerivedOpenInterest(snapshots[..|snapshots| - 1]) + OpenInterestOf(snapshots[|snapshots| - 1])
  }

  function DerivedFunding(snapshots: seq<Item>): seq<Item>
    requires AllOf(snapshots, MarketSnapshots)
  {
    if snapshots == [] then [] else DerivedFunding(snapshots[..|snapshots| - 1]) + FundingOf(snapshots[|snapshots| - 1])
  }

  /** Snapshot `i` yields the next open interest, with its own figures, exactly when it carries one. */
  lemma {:induction false} DerivedOpenInterestAt(snapshots: seq<Item>, i: nat)
    requires AllOf(snapshots, MarketSnapshots) && i < |snapshots|
    ensures var s, n, derived := snapshots[i], |DerivedOpenInterest(snapshots[..i])|, DerivedOpenInterest(snapshots);
            && |DerivedOpenInterest(snapshots[..i + 1])| == (if s.openInterest.Some? then n + 1 else n) <= |derived|
            && (s.openInterest.Some? ==>
                  && derived[n].OpenInterest? && derived[n].meta == s.meta && derived[n].at == s.at
                  && Some(derived[n].amount) == s.openInterest && derived[n].value.None? && derived[n].period == "")
  {
    var init := snapshots[..|snapshots| - 1];
    if i < |init| {
      assert init[..i] == snapshots[..i] && init[..i + 1] == snapshots[..i + 1];
      DerivedOpenInterestAt(init, i);
    } else {
      assert snapshots[..i + 1] == snapshots;
    }
  }

  /** The same for funding. */
  lemma {:induction false} DerivedFundingAt(snapshots: seq<Item>, i: nat)
    requires AllOf(snapshots, MarketSnapshots) && i < |snapshots|
    ensures var s, n, derived := snapshots[i], |DerivedFunding(snapshots[..i])|, DerivedFunding(snapshots);
            && |DerivedFunding(snapshots[..i + 1])| == (if s.fundingRate.Some? then n + 1 else n) <= |derived|
            && (s.fundingRate.Some? ==>
                  && derived[n].FundingSnapshot? && derived[n].meta == s.meta && derived[n].at == s.at
                  && Some(derived[n].rate) == s.fundingRate && derived[n].markPrice == s.markPrice && derived[n].indexPrice == s.indexPrice)
  {
    var init := snapshots[..|snapshots| - 1];
    if i < |init| {
      assert init[..i] == snapshots[..i] && init[..i + 1] == snapshots[..i + 1];
      DerivedFundingAt(init, i);
    } else {
      assert snapshots[..i + 1] == snapshots;
    }
  }

  /** A snapshot the filter kept yields only open interest and funding the repositories accept. */
  lemma {:induction false} DerivedSnapshotsAreValid(snapshots: seq<Item>, history: bool)
    requires AllOf(snapshots, MarketSnapshots) && AllValid(snapshots, history)
    ensures AllValid(DerivedOpenInterest(snapshots), false) && AllValid(DerivedFunding(snapshots), false)
  {
    hide Valid, OpenInterestOf, FundingOf;
    if snapshots != [] {
      DerivedSnapshotsAreValid(snapshots[..|snapshots| - 1], history);
      OneSnapshotIsValid(snapshots[|snapshots| - 1], history);
    }
  }

  lemma OneSnapshotIsValid(s: Item, history: bool)
    requires s.MarketSnapshot? && Valid(s, history)
    ensures AllValid(OpenInterestOf(s), false) && AllValid(FundingOf(s), false)
  {
    hide Trim, PeriodPattern;
  }

  /** A taker flow has a change when it carries a delta or both volumes of one currency. */
  predicate HasChange(f: Item)
    requires f.TakerFlow?
  {
    f.deltaQuote.Some? || (f.buyQuoteVolume.Some? && f.sellQuoteVolume.Some?) || f.delta.Some? || (f.buyVolume.Some? && f.sellVolume.Some?)
  }

  function DerivedCvd(flows: seq<Item>): seq<Item>
    requires AllOf(flows, TakerFlows)
  {
    if flows == [] then []
    else
      var init, f := DerivedCvd(flows[..|flows| - 1]), flows[|flows| - 1];
      if HasChange(f) then init + [Cvd(f.meta, f.at, f.period)] else init
  }

  /** Flow `i` yields the next row of the volume delta exactly when it carries a delta or both volumes of a currency. */
  lemma {:induction false} DerivedCvdAt(flows: seq<Item>, i: nat)
    requires AllOf(flows, TakerFlows) && i < |flows|
    ensures var f, n, derived := flows[i], |DerivedCvd(flows[..i])|, DerivedCvd(flows);
            var changes := f.delta.Some? || f.deltaQuote.Some? || (f.buyVolume.Some? && f.sellVolume.Some?)
                           || (f.buyQuoteVolume.Some? && f.sellQuoteVolume.Some?);
            && |DerivedCvd(flows[..i + 1])| == (if changes then n + 1 else n) <= |derived|
            && (changes ==> derived[n].Cvd? && derived[n].meta == f.meta && derived[n].at == f.at && derived[n].period == f.period)
  {
    var init := flows[..|flows| - 1];
    if i < |init| {
      assert init[..i] == flows[..i] && init[..i + 1] == flows[..i + 1];
      DerivedCvdAt(init, i);
    } else {
      assert flows[..i + 1] == flows;
    }
  }

  lemma {:induction false} DerivedCvdIsValid(flows: seq<Item>, history: bool)
    requires AllOf(flows, TakerFlows) && AllValid(flows, history)
    ensures AllValid(DerivedCvd(flows), false)
  {
    hide Trim, PeriodPattern;
    if flows != [] {
      var f := flows[|flows| - 1];
      DerivedCvdIsValid(flows[..|flows| - 1], history);
      assert Valid(f, history) && f.TakerFlow?;
    }
  }

  method DeriveOpenInterest(snapshots: seq<Item>) returns (derived: seq<Item>)
    requires AllOf(snapshots, MarketSnapshots)
    ensures derived == DerivedOpenInterest(snapshots)
  {
    derived := [];
    var i := 0;
    while i < |snapshots|
      invariant 0 <= i <= |snapshots| && derived == DerivedOpenInterest(snapshots[..i])
    {
      assert snapshots[..i + 1][..i] == snapshots[..i];
      var s := snapshots[i];
      if s.openInterest.Some? {
        derived := derived + [OpenInterest(s.meta, s.at, "", s.openInterest.value, None)];
      }
      i := i + 1;
    }
    assert snapshots[..i] == snapshots;
  }

  method DeriveFunding(snapshots: seq<Item>) returns (derived: seq<Item>)
    requires AllOf(snapshots, MarketSnapshots)
    ensures derived == DerivedFunding(snapshots)
  {
    derived := [];
    var i := 0;
    while i < |snapshots|
      invariant 0 <= i <= |snapshots| && derived == DerivedFunding(snapshots[..i])
    {
      assert snapshots[..i + 1][..i] == snapshots[..i];
      var s := snapshots[i];
      if s.fundingRate.Some? {
        derived := derived + [FundingSnapshot(s.meta, s.at, s.fundingRate.value, s.markPrice, s.indexPrice)];
      }
      i := i + 1;
    }
    assert snapshots[..i] == snapshots;
  }

  // --------------------------------------------------------- liquidation aggregates

  function LiquidationPeriod(job: Job): string {
    if Trim(job.period) != "" then Trim(job.period) else if Lower(job.tier) == "all" then "5m" else "1m"
  }

  function BucketSize(period: string): nat
    ensures 0 < BucketSize(period)
  {
    if Lower(Trim(period)) == "5m" then 5 * MINUTE else MINUTE
  }

  function BucketOf(e: Item, period: string): nat { e.at - e.at % BucketSize(period) }

  /** The candle an event falls into: the one that starts on a bucket boundary and holds its time. */
  lemma BucketHolds(e: Item, period: string, b: nat)
    ensures BucketOf(e, period) == b <==> b % BucketSize(period) == 0 && b <= e.at < b + BucketSize(period)
  {
    hide BucketSize;
    var size := BucketSize(period);
    Modular.RoundDown(e.at, size);
    if b % size == 0 && b <= e.at < b + size {
      if BucketOf(e, period) < b { Modular.MultiplesApart(BucketOf(e, period), b, size); }
      if b < BucketOf(e, period) { Modular.MultiplesApart(b, BucketOf(e, period), size); }
    }
  }

  /**
    A bucket is as long as its period's name says exactly for one minute and for "5m": any
    other period, such as 15m or 1h, is cut into buckets of one minute.
   */
  lemma BucketMatchesNameIff(period: string)
    requires Spelled(Trim(period)) > 0
    ensures BucketSize(period) == Spelled(Trim(period)) * 1_000_000_000 <==> Spelled(Trim(period)) == 60 || Trim(period) == "5m"
  {
    hide Trim;
    var name := Trim(period);
    SpelledShort("5m");
    if Lower(name) == "5m" {
      assert name[0] == '5' by { assert Lower(name)[0] == '5'; }
      assert name[1] == 'm' || name[1] == 'M' by { assert Lower(name)[1] == 'm'; }
      SpelledShort(name);
      assert name == [name[0], name[1]];
    }
    if name == "5m" { assert Lower(name) == "5m"; }
  }

  /** The period of the derived aggregates is the job's own; without one it is that of the tier, and then the buckets match it. */
  lemma AggregatePeriod(job: Job)
    ensures Trim(job.period) != "" ==> LiquidationPeriod(job) == Trim(job.period)
    ensures Trim(job.period) == "" ==> LiquidationPeriod(job) == if Lower(job.tier) == "all" then "5m" else "1m"
    ensures Trim(job.period) == "" ==> BucketSize(LiquidationPeriod(job)) == Spelled(LiquidationPeriod(job)) * 1_000_000_000
  {
    if Trim(job.period) == "" {
      assert Trim("5m") == "5m" && Trim("1m") == "1m";
      SpelledShort("5m");
      SpelledShort("1m");
      BucketMatchesNameIff(LiquidationPeriod(job));
    }
  }

  /** What an event is worth: its reported value, else its notional, else price times quantity, else nothing. */
  lemma EventWorth(e: Item)
    requires e.LiquidationEvent?
    ensures e.usdValue.Some? ==> Some(EventUsd(e)) == e.usdValue
    ensures e.usdValue.None? && e.notional.Some? ==> Some(EventUsd(e)) == e.notional
    ensures e.usdValue.None? && e.notional.None? && e.price.Some? && e.quantity.Some? ==> EventUsd(e) == e.quantity.value * e.price.value
    ensures e.usdValue.None? && e.notional.None? && (e.price.None? || e.quantity.None?) ==> EventUsd(e) == 0.0
    ensures IsLong(e) <==> Lower(Trim(e.side)) in {"sell", "long"}
  {
    hide Trim, Lower;
  }

  function EventUsd(e: Item): real
    requires e.LiquidationEvent?
  {
    if e.usdValue.Some? then e.usdValue.value
    else if e.notional.Some? then e.notional.value
    else if e.price.Some? && e.quantity.Some? then e.price.value * e.quantity.value
    else 0.0
  }

  /** Sales close long positions; every other side counts as short. */
  predicate IsLong(e: Item)
    requires e.LiquidationEvent?
  {
    Lower(Trim(e.side)) == "sell" || Lower(Trim(e.side)) == "long"
  }

  /** An event counted into its bucket's aggregate. */
  function Counted(a: Item, e: Item): (r: Item)
    requires a.LiquidationAggregate? && e.LiquidationEvent?
    ensures r.LiquidationAggregate?
  {
    var usd := EventUsd(e);
    var sided :=
      if IsLong(e) then a.(longCount := a.longCount + 1, longUsd := a.longUsd + usd, longNotional := a.longNotional + usd)
      else a.(shortCount := a.shortCount + 1, shortUsd := a.shortUsd + usd, shortNotional := a.shortNotional + usd);
    sided.(totalUsd := a.totalUsd + usd, totalNotional := a.totalNotional + usd, largestUsd := MaxReal(a.largestUsd, usd))
  }

  /** A new aggregate, described by its first event. */
  function Empty(e: Item, period: string, b: nat): Item {
    LiquidationAggregate(e.meta, b, period, 0, 0, 0.0, 0.0, 0.0, 0.0, 0.0, 0.0, 0.0)
  }

  /** One turn of the loop over the events. */
  function Aggregated(aggs: map<nat, Item>, e: Item, period: string): map<nat, Item>
    requires e.LiquidationEvent? && forall b :: b in aggs ==> aggs[b].LiquidationAggregate?
    ensures forall b :: b in Aggregated(aggs, e, period) ==> Aggregated(aggs, e, period)[b].LiquidationAggregate?
  {
    if e.at == 0 || e.meta.symbolId == 0 then aggs
    else
      var b := BucketOf(e, period);
      aggs[b := Counted(if b in aggs then aggs[b] else Empty(e, period, b), e)]
  }

  function Aggregates(events: seq<Item>, period: string): (aggs: map<nat, Item>)
    requires AllOf(events, LiquidationEvents)
    ensures forall b :: b in aggs ==> aggs[b].LiquidationAggregate?
  {
    if events == [] then map[] else Aggregated(Aggregates(events[..|events| - 1], period), events[|events| - 1], period)
  }

  // What a bucket's aggregate should say, from the events of that bucket alone.

  function InBucket(events: seq<Item>, period: string, b: nat): (es: seq<Item>)
    requires AllOf(events, LiquidationEvents)
    ensures AllOf(es, LiquidationEvents)
  {
    if events == [] then []
    else
      var init, e := InBucket(events[..|events| - 1], period, b), events[|events| - 1];
      if e.at != 0 && e.meta.symbolId != 0 && BucketOf(e, period) == b then init + [e] else init
  }

  function LongCount(es: seq<Item>): (n: nat)
    requires AllOf(es, LiquidationEvents)
    ensures n <= |es|
  {
    if es == [] then 0 else LongCount(es[..|es| - 1]) + if IsLong(es[|es| - 1]) then 1 else 0
  }

  function LongUsd(es: seq<Item>): real
    requires AllOf(es, LiquidationEvents)
  {
    if es == [] then 0.0 else LongUsd(es[..|es| - 1]) + if IsLong(es[|es| - 1]) then EventUsd(es[|es| - 1]) else 0.0
  }

  function Usd(es: seq<Item>): real
    requires AllOf(es, LiquidationEvents)
  {
    if es == [] then 0.0 else Usd(es[..|es| - 1]) + EventUsd(es[|es| - 1])
  }

  function Largest(es: seq<Item>): real
    requires AllOf(es, LiquidationEvents)
  {
    if es == [] then 0.0 else MaxReal(Largest(es[..|es| - 1]), EventUsd(es[|es| - 1]))
  }

  /** Described by its first event; what is not long is short. */
  function Summary(es: seq<Item>, period: string, b: nat): Item
    requires es != [] && AllOf(es, LiquidationEvents)
  {
    var long, total := LongUsd(es), Usd(es);
    LiquidationAggregate(es[0].meta, b, period, LongCount(es), |es| - LongCount(es),
                         long, total - long, total, long, total - long, total, Largest(es))
  }

  /** Counting one more event is summarising one more event. */
  lemma SummaryExtends(es: seq<Item>, e: Item, period: string, b: nat)
    requires e.LiquidationEvent? && AllOf(es, LiquidationEvents)
    ensures AllOf(es + [e], LiquidationEvents)
    ensures Summary(es + [e], period, b) == Counted(if es == [] then Empty(e, period, b) else Summary(es, period, b), e)
  {
    hide EventUsd, IsLong, MaxReal, LongCount, LongUsd, Usd, Largest;
    SumsExtend(es, e);
    EmptySums();
  }

  lemma EmptySums()
    ensures LongCount([]) == 0 && LongUsd([]) == 0.0 && Usd([]) == 0.0 && Largest([]) == 0.0
  {
  }

  lemma SumsExtend(es: seq<Item>, e: Item)
    requires e.LiquidationEvent? && AllOf(es, LiquidationEvents)
    ensures AllOf(es + [e], LiquidationEvents)
    ensures LongCount(es + [e]) == LongCount(es) + if IsLong(e) then 1 else 0
    ensures LongUsd(es + [e]) == LongUsd(es) + if IsLong(e) then EventUsd(e) else 0.0
    ensures Usd(es + [e]) == Usd(es) + EventUsd(e) && Largest(es + [e]) == MaxReal(Largest(es), EventUsd(e))
  {
    hide EventUsd, IsLong, MaxReal;
    assert (es + [e])[..|es|] == es;
  }

  /** The running aggregates are, bucket by bucket, the summaries of the bucket's events. */
  lemma {:induction false} AggregatesSummarise(events: seq<Item>, period: string, b: nat)
    requires AllOf(events, LiquidationEvents)
    ensures b in Aggregates(events, period) <==> InBucket(events, period, b) != []
    ensures b in Aggregates(events, period) ==> Aggregates(events, period)[b] == Summary(InBucket(events, period, b), period, b)
  {
    hide BucketOf, Summary, Counted, Empty;
    if events != [] {
      var init, e := events[..|events| - 1], events[|events| - 1];
      AggregatesSummarise(init, period, b);
      SummaryExtends(InBucket(init, period, b), e, period, b);
    }
  }

  /** Nothing gets lost between the sides: counts and values add up, and each event is on one side. */
  lemma AggregateBalances(events: seq<Item>, period: string, b: nat)
    requires AllOf(events, LiquidationEvents) && b in Aggregates(events, period)
    ensures var a, es := Aggregates(events, period)[b], InBucket(events, period, b);
            && a.at == b && a.period == period && es != [] && a.meta == es[0].meta
            && a.longCount + a.shortCount == |es| && a.longCount == LongCount(es)
            && a.longUsd + a.shortUsd == a.totalUsd == Usd(es) && a.longUsd == LongUsd(es) && a.largestUsd == Largest(es)
            && a.longNotional == a.longUsd && a.shortNotional == a.shortUsd && a.totalNotional == a.totalUsd
  {
    hide BucketOf, InBucket, Aggregates, LongCount, LongUsd, Usd, Largest;
    AggregatesSummarise(events, period, b);
  }

  lemma EventUsdIsNonNegative(e: Item, history: bool)
    requires e.LiquidationEvent? && Valid(e, history)
    ensures 0.0 <= EventUsd(e)
  {
  }

  lemma {:induction false} SumsAreNonNegative(es: seq<Item>, history: bool)
    requires AllOf(es, LiquidationEvents) && AllValid(es, history)
    ensures 0.0 <= LongUsd(es) <= Usd(es) && 0.0 <= Largest(es)
  {
    hide Valid, EventUsd, IsLong;
    if es != [] {
      SumsAreNonNegative(es[..|es| - 1], history);
      EventUsdIsNonNegative(es[|es| - 1], history);
    }
  }

  /** The largest liquidation of valid events is one of them and no event exceeds it. */
  lemma {:induction false} LargestIsMaximum(es: seq<Item>, history: bool)
    requires es != [] && AllOf(es, LiquidationEvents) && AllValid(es, history)
    ensures exists i :: 0 <= i < |es| && EventUsd(es[i]) == Largest(es)
    ensures forall i :: 0 <= i < |es| ==> EventUsd(es[i]) <= Largest(es)
  {
    hide Valid, EventUsd;
    var init, last := es[..|es| - 1], |es| - 1;
    EventUsdIsNonNegative(es[last], history);
    if init != [] {
      LargestIsMaximum(init, history);
      var i :| 0 <= i < |init| && EventUsd(init[i]) == Largest(init);
      assert EventUsd(es[if EventUsd(es[last]) > Largest(init) then last else i]) == Largest(es);
      forall j | 0 <= j < last ensures EventUsd(es[j]) <= Largest(es) { assert es[j] == init[j]; }
    } else {
      assert EventUsd(es[0]) == Largest(es);
    }
  }

  lemma {:induction false} InBucketIsValid(events: seq<Item>, period: string, b: nat, history: bool)
    requires AllOf(events, LiquidationEvents) && AllValid(events, history)
    ensures AllValid(InBucket(events, period, b), history)
    ensures forall i :: 0 <= i < |InBucket(events, period, b)| ==> InBucket(events, period, b)[i] in events
  {
    hide Valid, BucketOf;
    if events != [] { InBucketIsValid(events[..|events| - 1], period, b, history); }
  }

  lemma SummaryIsValidIff(es: seq<Item>, period: string, b: nat, history: bool)
    requires es != [] && AllOf(es, LiquidationEvents) && AllValid(es, history)
    ensures Valid(Summary(es, period, b), false) <==> ValidPeriod(period) && 0 < b
  {
    hide Trim, PeriodPattern, LongUsd, Usd, Largest, LongCount;
    SumsAreNonNegative(es, history);
    assert Valid(es[0], history);
  }

  lemma {:induction false} EventHasBucket(events: seq<Item>, period: string, i: nat, history: bool)
    requires i < |events| && AllOf(events, LiquidationEvents) && AllValid(events, history)
    ensures InBucket(events, period, BucketOf(events[i], period)) != []
  {
    hide BucketOf, Trim, PeriodPattern;
    assert Valid(events[i], history);
    if i < |events| - 1 { EventHasBucket(events[..|events| - 1], period, i, history); }
  }

  lemma {:induction false} BucketHasEvent(events: seq<Item>, period: string, b: nat)
    requires AllOf(events, LiquidationEvents) && InBucket(events, period, b) != []
    ensures exists i :: 0 <= i < |events| && BucketOf(events[i], period) == b
  {
    hide BucketOf;
    var init, last := events[..|events| - 1], |events| - 1;
    if BucketOf(events[last], period) != b {
      BucketHasEvent(init, period, b);
      var i :| 0 <= i < |init| && BucketOf(init[i], period) == b;
      assert events[i] == init[i];
    }
  }

  ghost predicate AllAggregatesValid(aggs: map<nat, Item>) { forall b :: b in aggs ==> Valid(aggs[b], false) }

  /** No event may fall into the bucket of the zero time. */
  ghost predicate PastZeroBucket(events: seq<Item>, period: string) {
    forall i :: 0 <= i < |events| ==> BucketOf(events[i], period) != 0
  }

  /** The aggregates of valid events are accepted iff the period is well formed and no event is in the zero-time bucket. */
  lemma AggregatesAreValidIff(events: seq<Item>, period: string, history: bool)
    requires AllOf(events, LiquidationEvents) && AllValid(events, history)
    ensures AllAggregatesValid(Aggregates(events, period)) <==> events == [] || (ValidPeriod(period) && PastZeroBucket(events, period))
  {
    hide Valid, ValidPeriod, Aggregates, InBucket, Summary, BucketOf;
    forall b ensures b in Aggregates(events, period) ==>
                       (Valid(Aggregates(events, period)[b], false) <==> ValidPeriod(period) && 0 < b)
    {
      AggregatesSummarise(events, period, b);
      InBucketIsValid(events, period, b, history);
      if b in Aggregates(events, period) { SummaryIsValidIff(InBucket(events, period, b), period, b, history); }
    }
    forall i | 0 <= i < |events| ensures BucketOf(events[i], period) in Aggregates(events, period) {
      EventHasBucket(events, period, i, history);
      AggregatesSummarise(events, period, BucketOf(events[i], period));
    }
    if 0 in Aggregates(events, period) {
      AggregatesSummarise(events, period, 0);
      BucketHasEvent(events, period, 0);
    }
    if events == [] { NoEventsNoAggregates(period); } else { assert BucketOf(events[0], period) in Aggregates(events, period); }
  }

  lemma NoEventsNoAggregates(period: string)
    ensures Aggregates([], period) == map[]
  {
  }

  /** The aggregates in some order. */
  ghost predicate Lists(items: seq<Item>, aggs: map<nat, Item>) {
    && |items| == |aggs|
    && (forall i :: 0 <= i < |items| ==> exists b :: b in aggs && aggs[b] == items[i])
    && (forall b :: b in aggs ==> aggs[b] in items)
  }

  method DeriveLiquidationAggregates(job: Job, events: seq<Item>) returns (derived: seq<Item>)
    requires AllOf(events, LiquidationEvents)
    ensures Lists(derived, Aggregates(events, LiquidationPeriod(job)))
  {
    hide LiquidationPeriod, BucketOf, Counted;
    var period := LiquidationPeriod(job);
    var buckets: map<nat, Item> := map[];
    var i := 0;
    while i < |events|
      invariant 0 <= i <= |events| && buckets == Aggregates(events[..i], period)
    {
      assert events[..i + 1][..i] == events[..i];
      buckets := Aggregated(buckets, events[i], period);
      i := i + 1;
    }
    assert events[..i] == events;
    derived := ListAggregates(buckets);
  }

  method ListAggregates(buckets: map<nat, Item>) returns (items: seq<Item>)
    ensures Lists(items, buckets)
  {
    items := [];
    var rest := buckets.Items;
    ItemCount(buckets);
    while rest != {}
      invariant rest <= buckets.Items && |items| + |rest| == |buckets|
      invariant forall i :: 0 <= i < |items| ==> exists b :: b in buckets && buckets[b] == items[i]
      invariant forall b :: b in buckets && (b, buckets[b]) !in rest ==> buckets[b] in items
      decreases |rest|
    {
      var entry :| entry in rest;
      assert entry.0 in buckets && buckets[entry.0] == entry.1;
      items := items + [entry.1];
      rest := rest - {entry};
    }
  }

  lemma {:induction false} ItemCount(m: map<nat, Item>)
    ensures |m.Items| == |m|
    decreases |m|
  {
  }

  lemma ListedAggregatesValid(items: seq<Item>, aggs: map<nat, Item>)
    requires Lists(items, aggs)
    ensures AllValid(items, false) <==> AllAggregatesValid(aggs)
  {
  }

  // ----------------------------------------------------------------------- Write

  datatype Repo = MarketRepo | KlineRepo | OpenInterestRepo | FundingRepo | AdvancedRepo

  datatype Upsert = Upsert(repo: Repo, history: bool, items: seq<Item>)

  /** The repository's second validation finds nothing. */
  predicate Accepts(u: Upsert) { forall i :: 0 <= i < |u.items| ==> Valid(u.items[i], u.history) }

  ghost predicate AllAccepted(us: seq<Upsert>) { forall i :: 0 <= i < |us| ==> Accepts(us[i]) }

  /** A call is made only to a configured repository and with something to write. */
  function Call(repos: set<Repo>, repo: Repo, history: bool, items: seq<Item>): seq<Upsert> {
    if repo in repos && items != [] then [Upsert(repo, history, items)] else []
  }

  lemma CallAccepted(repos: set<Repo>, repo: Repo, history: bool, items: seq<Item>)
    ensures AllAccepted(Call(repos, repo, history, items)) <==> repo !in repos || AllValid(items, history)
  {
    hide Valid;
    if repo in repos && items != [] {
      assert Call(repos, repo, history, items)[0] == Upsert(repo, history, items);
    }
  }

  lemma Joined(a: seq<Upsert>, b: seq<Upsert>)
    ensures AllAccepted(a + b) <==> AllAccepted(a) && AllAccepted(b)
  {
    hide Accepts;
    if AllAccepted(a + b) {
      assert forall i :: 0 <= i < |a| ==> (a + b)[i] == a[i];
      assert forall i :: 0 <= i < |b| ==> (a + b)[|a| + i] == b[i];
    }
  }

  ghost predicate Filtered(kept: Batch, run: Run) {
    WellKinded(kept) && forall k :: AllValid(Of(kept, k), History(run))
  }

  /** Where the items of a call come from: a kind's kept list, or what is derived for a kind. */
  datatype Source = Own(kind: Kind) | Derived(kind: Kind)

  /** The order of the statements in Write. */
  const ORDER: seq<Source> := [
    Own(MarketSnapshots), Own(Klines), Own(OpenInterests), Derived(OpenInterests), Own(FundingSnapshots), Own(FundingHistories),
    Derived(FundingSnapshots), Own(LongShortRatios), Own(TakerFlows), Derived(Cvds), Own(Cvds), Own(LiquidationEvents),
    Derived(LiquidationAggregates), Own(LiquidationAggregates), Own(BasisPremiums), Own(OrderbookImbalances), Own(ExchangeDivergences)]

  function RepoOf(kind: Kind): Repo {
    match kind
    case MarketSnapshots => MarketRepo
    case Klines => KlineRepo
    case OpenInterests => OpenInterestRepo
    case FundingSnapshots => FundingRepo
    case FundingHistories => FundingRepo
    case _ => AdvancedRepo
  }

  /** What Write works on: the configured repositories, the kept items, and some listing of the derived aggregates. */
  datatype Plan = Plan(repos: set<Repo>, run: Run, kept: Batch, aggregates: seq<Item>)

  function ItemsOf(s: Source, p: Plan): seq<Item>
    requires WellKinded(p.kept)
  {
    match s
    case Own(kind) => Of(p.kept, kind)
    case Derived(kind) =>
      match kind
      case OpenInterests => if p.run.dataType == "open_interest" then DerivedOpenInterest(Of(p.kept, MarketSnapshots)) else []
      case FundingSnapshots => if p.run.dataType == "funding" then DerivedFunding(Of(p.kept, MarketSnapshots)) else []
      case Cvds => DerivedCvd(Of(p.kept, TakerFlows))
      case LiquidationAggregates => p.aggregates
      case _ => []
  }

  /** What one source has to send: its items to its kind's repository; only kept open interest can be history. */
  function SentBy(s: Source, p: Plan): seq<Upsert>
    requires WellKinded(p.kept)
  {
    Call(p.repos, RepoOf(s.kind), s == Own(OpenInterests) && History(p.run), ItemsOf(s, p))
  }

  function Sent(ss: seq<Source>, p: Plan): seq<Upsert>
    requires WellKinded(p.kept)
  {
    if ss == [] then [] else Sent(ss[..|ss| - 1], p) + SentBy(ss[|ss| - 1], p)
  }

  /** The repository calls of Write, in order. */
  function Calls(p: Plan): seq<Upsert>
    requires WellKinded(p.kept)
  {
    Sent(ORDER, p)
  }

  ghost predicate IsPlan(p: Plan) {
    WellKinded(p.kept) && Lists(p.aggregates, Aggregates(Of(p.kept, LiquidationEvents), LiquidationPeriod(p.run.job)))
  }

  ghost predicate AreCalls(calls: seq<Upsert>, repos: set<Repo>, run: Run, kept: Batch)
    requires WellKinded(kept)
  {
    exists aggregates :: IsPlan(Plan(repos, run, kept, aggregates)) && calls == Calls(Plan(repos, run, kept, aggregates))
  }

  // What is sent, and where.

  /** The kind whose kept items a derived list is made from. */
  function Origin(kind: Kind): Kind {
    match kind
    case OpenInterests => MarketSnapshots
    case FundingSnapshots => MarketSnapshots
    case Cvds => TakerFlows
    case LiquidationAggregates => LiquidationEvents
    case _ => kind
  }

  /** The place of a kind's own call, and of the call derived for it. */
  function OwnPlace(kind: Kind): nat {
    match kind
    case MarketSnapshots => 0
    case Klines => 1
    case OpenInterests => 2
    case FundingSnapshots => 4
    case FundingHistories => 5
    case LongShortRatios => 7
    case TakerFlows => 8
    case Cvds => 10
    case LiquidationEvents => 11
    case LiquidationAggregates => 13
    case BasisPremiums => 14
    case OrderbookImbalances => 15
    case ExchangeDivergences => 16
  }

  function DerivedPlace(kind: Kind): nat
    requires Origin(kind) != kind
  {
    match kind
    case OpenInterests => 3
    case FundingSnapshots => 6
    case Cvds => 9
    case LiquidationAggregates => 12
  }

  /** Every kind has exactly one place, and what is derived from it a later one. */
  lemma OrderIsComplete(kind: Kind, i: nat)
    requires i < |ORDER|
    ensures ORDER[i] == Own(kind) <==> i == OwnPlace(kind)
    ensures ORDER[i] == Derived(kind) <==> Origin(kind) != kind && i == DerivedPlace(kind)
    ensures Origin(kind) != kind ==> OwnPlace(Origin(kind)) < DerivedPlace(kind)
  {
  }

  lemma {:induction false} SentPrefix(ss: seq<Source>, i: nat, p: Plan)
    requires WellKinded(p.kept) && i < |ss|
    ensures Sent(ss[..i], p) + SentBy(ss[i], p) <= Sent(ss, p)
  {
    hide SentBy, WellKinded;
    var init := ss[..|ss| - 1];
    if i < |init| {
      assert init[..i] == ss[..i];
      SentPrefix(init, i, p);
    }
  }

  /** A source with something to send and its repository configured makes its call, after those of earlier sources. */
  lemma SourceIsSent(i: nat, p: Plan)
    requires WellKinded(p.kept) && i < |ORDER| && RepoOf(ORDER[i].kind) in p.repos && ItemsOf(ORDER[i], p) != []
    ensures var n, history := |Sent(ORDER[..i], p)|, ORDER[i] == Own(OpenInterests) && p.run.dataType == "open_interest_history";
            n < |Calls(p)| && Calls(p)[n] == Upsert(RepoOf(ORDER[i].kind), history, ItemsOf(ORDER[i], p))
    ensures forall j :: i < j < |ORDER| ==> |Sent(ORDER[..i], p)| < |Sent(ORDER[..j], p)|
  {
    hide WellKinded, ItemsOf, RepoOf, Sent;
    SentPrefix(ORDER, i, p);
    forall j | i < j < |ORDER| ensures |Sent(ORDER[..i], p)| < |Sent(ORDER[..j], p)| {
      assert ORDER[..j][..i] == ORDER[..i];
      SentPrefix(ORDER[..j], i, p);
    }
  }

  /** Conversely, every call is that of one source. */
  lemma {:induction false} CallHasSource(ss: seq<Source>, n: nat, p: Plan) returns (i: nat)
    requires WellKinded(p.kept) && n < |Sent(ss, p)|
    ensures i < |ss| && n == |Sent(ss[..i], p)| && RepoOf(ss[i].kind) in p.repos && ItemsOf(ss[i], p) != []
  {
    hide WellKinded, ItemsOf, RepoOf;
    var init, last := ss[..|ss| - 1], |ss| - 1;
    if n < |Sent(init, p)| {
      i := CallHasSource(init, n, p);
      assert ss[..i] == init[..i];
    } else {
      i := last;
    }
  }

  /** Only open interest is validated differently for history. */
  lemma HistoryMattersOnlyForOpenInterest(kept: Batch, run: Run, kind: Kind)
    requires Filtered(kept, run) && kind != OpenInterests
    ensures AllValid(Of(kept, kind), false)
  {
  }

  /** What a kind keeps goes, whole and once, to its repository. */
  lemma KeptIsSent(kind: Kind, p: Plan)
    requires WellKinded(p.kept) && RepoOf(kind) in p.repos && Of(p.kept, kind) != []
    ensures var n := |Sent(ORDER[..OwnPlace(kind)], p)|;
            n < |Calls(p)| &&
            Calls(p)[n] == Upsert(RepoOf(kind), kind == OpenInterests && p.run.dataType == "open_interest_history", Of(p.kept, kind))
  {
    hide WellKinded, Sent, RepoOf;
    OrderIsComplete(kind, OwnPlace(kind));
    SourceIsSent(OwnPlace(kind), p);
  }

  /** What is derived for a kind goes there too, after what it is derived from. */
  lemma DerivedIsSent(kind: Kind, p: Plan)
    requires WellKinded(p.kept) && RepoOf(kind) in p.repos && Origin(kind) != kind && ItemsOf(Derived(kind), p) != []
    ensures var n := |Sent(ORDER[..DerivedPlace(kind)], p)|;
            n < |Calls(p)| && Calls(p)[n] == Upsert(RepoOf(kind), false, ItemsOf(Derived(kind), p))
    ensures RepoOf(Origin(kind)) in p.repos && Of(p.kept, Origin(kind)) != [] ==>
            |Sent(ORDER[..OwnPlace(Origin(kind))], p)| < |Sent(ORDER[..DerivedPlace(kind)], p)|
  {
    hide WellKinded, Sent, RepoOf, ItemsOf;
    OrderIsComplete(kind, DerivedPlace(kind));
    SourceIsSent(DerivedPlace(kind), p);
    if RepoOf(Origin(kind)) in p.repos && Of(p.kept, Origin(kind)) != [] {
      OrderIsComplete(Origin(kind), OwnPlace(Origin(kind)));
      OwnItems(Origin(kind), p);
      SourceIsSent(OwnPlace(Origin(kind)), p);
    }
  }

  /** Snapshots yield open interest and funding only for jobs of that data type; flows and liquidations always yield theirs. */
  lemma DerivedFor(p: Plan)
    requires WellKinded(p.kept)
    ensures ItemsOf(Derived(OpenInterests), p) == if p.run.dataType == "open_interest" then DerivedOpenInterest(Of(p.kept, MarketSnapshots)) else []
    ensures ItemsOf(Derived(FundingSnapshots), p) == if p.run.dataType == "funding" then DerivedFunding(Of(p.kept, MarketSnapshots)) else []
    ensures ItemsOf(Derived(Cvds), p) == DerivedCvd(Of(p.kept, TakerFlows)) && ItemsOf(Derived(LiquidationAggregates), p) == p.aggregates
  {
    hide DerivedOpenInterest, DerivedFunding, DerivedCvd;
  }

  lemma OwnItems(kind: Kind, p: Plan)
    requires WellKinded(p.kept)
    ensures ItemsOf(Own(kind), p) == Of(p.kept, kind)
  {
  }

  /** The kinds a repository has tables for. */
  function Stores(repo: Repo): set<Kind> {
    match repo
    case MarketRepo => {MarketSnapshots}
    case KlineRepo => {Klines}
    case OpenInterestRepo => {OpenInterests}
    case FundingRepo => {FundingSnapshots, FundingHistories}
    case AdvancedRepo =>
      {LongShortRatios, TakerFlows, Cvds, LiquidationEvents, LiquidationAggregates, BasisPremiums, OrderbookImbalances, ExchangeDivergences}
  }

  lemma {:induction false} DerivedKinds(snapshots: seq<Item>)
    requires AllOf(snapshots, MarketSnapshots)
    ensures AllOf(DerivedOpenInterest(snapshots), OpenInterests) && AllOf(DerivedFunding(snapshots), FundingSnapshots)
  {
    if snapshots != [] { DerivedKinds(snapshots[..|snapshots| - 1]); }
  }

  lemma {:induction false} DerivedCvdKinds(flows: seq<Item>)
    requires AllOf(flows, TakerFlows)
    ensures AllOf(DerivedCvd(flows), Cvds)
  {
    hide HasChange;
    if flows != [] { DerivedCvdKinds(flows[..|flows| - 1]); }
  }

  /** No repository is ever handed items of a kind it does not store. */
  lemma CallFitsRepo(n: nat, p: Plan)
    requires IsPlan(p) && n < |Calls(p)|
    ensures exists kind :: kind in Stores(Calls(p)[n].repo) && AllOf(Calls(p)[n].items, kind)
  {
    hide Sent, Aggregates, LiquidationPeriod, DerivedOpenInterest, DerivedFunding, DerivedCvd;
    var i := CallHasSource(ORDER, n, p);
    SourceIsSent(i, p);
    DerivedKinds(Of(p.kept, MarketSnapshots));
    DerivedCvdKinds(Of(p.kept, TakerFlows));
    var kind := ORDER[i].kind;
    assert kind in Stores(Calls(p)[n].repo) && AllOf(Calls(p)[n].items, kind);
  }

  // Which calls the repositories accept.

  lemma {:induction false} SentAccepted(ss: seq<Source>, p: Plan)
    requires WellKinded(p.kept)
    ensures AllAccepted(Sent(ss, p)) <==> forall i :: 0 <= i < |ss| ==> AllAccepted(SentBy(ss[i], p))
  {
    hide SentBy, WellKinded, AllAccepted;
    if ss == [] {
      NoneAccepted();
    } else {
      SentAccepted(ss[..|ss| - 1], p);
      Joined(Sent(ss[..|ss| - 1], p), SentBy(ss[|ss| - 1], p));
    }
  }

  lemma NoneAccepted()
    ensures AllAccepted([])
  {
  }

  /** One source: only the derived aggregates can be rejected. */
  lemma SourceAcceptedIff(s: Source, p: Plan)
    requires Filtered(p.kept, p.run)
    ensures AllAccepted(SentBy(s, p)) <==> s != Derived(LiquidationAggregates) || AdvancedRepo !in p.repos || AllValid(p.aggregates, false)
  {
    hide Call, AllAccepted, Valid, History, DerivedOpenInterest, DerivedFunding, DerivedCvd;
    CallAccepted(p.repos, RepoOf(s.kind), s == Own(OpenInterests) && History(p.run), ItemsOf(s, p));
    if s.Own? && s.kind != OpenInterests { HistoryMattersOnlyForOpenInterest(p.kept, p.run, s.kind); }
    if s == Own(OpenInterests) && !History(p.run) { assert AllValid(Of(p.kept, OpenInterests), History(p.run)); }
    DerivedSnapshotsAreValid(Of(p.kept, MarketSnapshots), History(p.run));
    DerivedCvdIsValid(Of(p.kept, TakerFlows), History(p.run));
  }

  lemma KeptAllIsFiltered(result: Batch, run: Run)
    requires WellKinded(result)
    ensures Filtered(KeptAll(result, run), run)
  {
    hide Valid, Kept;
    forall k ensures AllValid(Kept(Of(result, k), run), History(run)) && AllOf(Kept(Of(result, k), run), k) {
      KeptPasses(Of(result, k), run);
      KeptKeepsKind(Of(result, k), run, k);
    }
  }

  lemma {:induction false} KeptKeepsKind(items: seq<Item>, run: Run, k: Kind)
    requires AllOf(items, k)
    ensures AllOf(Kept(items, run), k)
  {
    hide Fault, Trim;
    if items != [] { KeptKeepsKind(items[..|items| - 1], run, k); }
  }

  /** The configured writer fails: a malformed job period, or a liquidation event in the zero-time bucket. */
  ghost predicate Aborts(kept: Batch, run: Run, repos: set<Repo>) {
    var events, period := Of(kept, LiquidationEvents), LiquidationPeriod(run.job);
    AdvancedRepo in repos && events != [] && !(ValidPeriod(period) && PastZeroBucket(events, period))
  }

  /**
    Every kept or derived item passes its repository's validator, but for the aggregates of
    liquidation events, and those fail exactly under `Aborts`.
   */
  lemma SecondValidationFailsIff(p: Plan)
    requires IsPlan(p) && Filtered(p.kept, p.run)
    ensures AllAccepted(Calls(p)) <==> !Aborts(p.kept, p.run, p.repos)
  {
    hide Valid, SentBy, Sent, AllAccepted, Lists, Aggregates, PastZeroBucket, ValidPeriod, LiquidationPeriod;
    var events, period := Of(p.kept, LiquidationEvents), LiquidationPeriod(p.run.job);
    SentAccepted(ORDER, p);
    forall i | 0 <= i < |ORDER| ensures AllAccepted(SentBy(ORDER[i], p)) <==>
        ORDER[i] != Derived(LiquidationAggregates) || AdvancedRepo !in p.repos || AllValid(p.aggregates, false)
    {
      SourceAcceptedIff(ORDER[i], p);
    }
    assert ORDER[12] == Derived(LiquidationAggregates);
    AggregatesAreValidIff(events, period, History(p.run));
    ListedAggregatesValid(p.aggregates, Aggregates(events, period));
  }

  // The statements of Write.

  lemma NextSource(p: Plan, i: nat)
    requires WellKinded(p.kept) && i < |ORDER|
    ensures Sent(ORDER[..i + 1], p) ==
            Sent(ORDER[..i], p) + Call(p.repos, RepoOf(ORDER[i].kind), ORDER[i] == Own(OpenInterests) && History(p.run), ItemsOf(ORDER[i], p))
  {
    assert ORDER[..i + 1][..i] == ORDER[..i] && ORDER[..i + 1][i] == ORDER[i];
  }

  method Send(calls: seq<Upsert>, repos: set<Repo>, repo: Repo, history: bool, items: seq<Item>) returns (more: seq<Upsert>)
    ensures more == calls + Call(repos, repo, history, items)
  {
    more := calls;
    if repo in repos && items != [] {
      more := more + [Upsert(repo, history, items)];
    }
  }

  lemma NothingSent(p: Plan)
    requires WellKinded(p.kept)
    ensures Sent(ORDER[..0], p) == []
  {
  }

  lemma NoCall(repos: set<Repo>, repo: Repo, history: bool)
    ensures Call(repos, repo, history, []) == []
  {
  }

  /** Market snapshots, klines and open interest. */
  method WriteSnapshots(sent: seq<Upsert>, repos: set<Repo>, run: Run, kept: Batch, ghost p: Plan) returns (calls: seq<Upsert>)
    requires WellKinded(kept) && p == Plan(repos, run, kept, p.aggregates) && sent == Sent(ORDER[..0], p)
    ensures calls == Sent(ORDER[..4], p)
  {
    hide Sent, Call, DerivedOpenInterest, DerivedFunding, DerivedCvd, Of, History;
    calls := sent;
    NextSource(p, 0);
    calls := Send(calls, repos, MarketRepo, false, Of(kept, MarketSnapshots));
    NextSource(p, 1);
    calls := Send(calls, repos, KlineRepo, false, Of(kept, Klines));
    NextSource(p, 2);
    calls := Send(calls, repos, OpenInterestRepo, History(run), Of(kept, OpenInterests));
    NextSource(p, 3);
    if run.dataType == "open_interest" {
      var derived := DeriveOpenInterest(Of(kept, MarketSnapshots));
      calls := Send(calls, repos, OpenInterestRepo, false, derived);
    } else {
      NoCall(repos, OpenInterestRepo, false);
    }
  }

  /** Funding snapshots and history. */
  method WriteFunding(sent: seq<Upsert>, repos: set<Repo>, run: Run, kept: Batch, ghost p: Plan) returns (calls: seq<Upsert>)
    requires WellKinded(kept) && p == Plan(repos, run, kept, p.aggregates) && sent == Sent(ORDER[..4], p)
    ensures calls == Sent(ORDER[..7], p)
  {
    hide Sent, Call, DerivedOpenInterest, DerivedFunding, DerivedCvd, Of, History;
    calls := sent;
    NextSource(p, 4);
    calls := Send(calls, repos, FundingRepo, false, Of(kept, FundingSnapshots));
    NextSource(p, 5);
    calls := Send(calls, repos, FundingRepo, false, Of(kept, FundingHistories));
    NextSource(p, 6);
    if run.dataType == "funding" {
      var derived := DeriveFunding(Of(kept, MarketSnapshots));
      calls := Send(calls, repos, FundingRepo, false, derived);
    } else {
      NoCall(repos, FundingRepo, false);
    }
  }

  /** Ratios, taker flows and the volume delta derived from them. */
  method WriteFlows(sent: seq<Upsert>, repos: set<Repo>, run: Run, kept: Batch, ghost p: Plan) returns (calls: seq<Upsert>)
    requires WellKinded(kept) && p == Plan(repos, run, kept, p.aggregates) && sent == Sent(ORDER[..7], p)
    ensures calls == Sent(ORDER[..11], p)
  {
    hide Sent, Call, DerivedOpenInterest, DerivedFunding, DerivedCvd, Of, History;
    calls := sent;
    NextSource(p, 7);
    calls := Send(calls, repos, AdvancedRepo, false, Of(kept, LongShortRatios));
    NextSource(p, 8);
    calls := Send(calls, repos, AdvancedRepo, false, Of(kept, TakerFlows));
    NextSource(p, 9);
    calls := Send(calls, repos, AdvancedRepo, false, DerivedCvd(Of(kept, TakerFlows)));
    NextSource(p, 10);
    calls := Send(calls, repos, AdvancedRepo, false, Of(kept, Cvds));
  }

  /** Liquidations with their aggregates, and the remaining kinds. */
  method WriteLiquidations(sent: seq<Upsert>, repos: set<Repo>, run: Run, kept: Batch, aggregates: seq<Item>, ghost p: Plan) returns (calls: seq<Upsert>)
    requires WellKinded(kept) && p == Plan(repos, run, kept, aggregates) && sent == Sent(ORDER[..11], p)
    ensures calls == Sent(ORDER[..17], p)
  {
    hide Sent, Call, DerivedOpenInterest, DerivedFunding, DerivedCvd, Of, History;
    calls := sent;
    NextSource(p, 11);
    calls := Send(calls, repos, AdvancedRepo, false, Of(kept, LiquidationEvents));
    NextSource(p, 12);
    calls := Send(calls, repos, AdvancedRepo, false, aggregates);
    NextSource(p, 13);
    calls := Send(calls, repos, AdvancedRepo, false, Of(kept, LiquidationAggregates));
    NextSource(p, 14);
    calls := Send(calls, repos, AdvancedRepo, false, Of(kept, BasisPremiums));
    NextSource(p, 15);
    calls := Send(calls, repos, AdvancedRepo, false, Of(kept, OrderbookImbalances));
    NextSource(p, 16);
    calls := Send(calls, repos, AdvancedRepo, false, Of(kept, ExchangeDivergences));
  }

  /** Calls in turn until a repository rejects one. */
  method SendAll(calls: seq<Upsert>) returns (sent: nat)
    ensures sent <= |calls| && AllAccepted(calls[..sent])
    ensures sent == |calls| || !Accepts(calls[sent])
  {
    hide Accepts;
    sent := 0;
    while sent < |calls| && Accepts(calls[sent])
      invariant sent <= |calls| && AllAccepted(calls[..sent])
    {
      sent := sent + 1;
    }
  }

  /** The calls made, in order, and whether Write returned without a validation error. */
  method Write(result: Batch, dataType: string, job: Job, now: nat, cfg: Config, digest: Item -> string, repos: set<Repo>)
    returns (calls: seq<Upsert>, sent: nat, issues: seq<Issue>)
    requires WellKinded(result)
    ensures var run := Run(dataType, job, now, Defaulted(cfg), digest);
            var kept := KeptAll(result, run);
            && issues == AllIssues(KINDS, result, run)
            && WellKinded(kept) && AreCalls(calls, repos, run, kept)
            && sent <= |calls| && AllAccepted(calls[..sent])
            && (sent == |calls| <==> !Aborts(kept, run, repos))
  {
    hide Defaulted, AllIssues, KeptAll, AllAccepted, Accepts, Sent, Aggregates, Lists, Aborts, Valid, LiquidationPeriod;
    var kept;
    kept, issues := FilterNormalizedResult(result, dataType, job, now, cfg, digest);
    var run := Run(dataType, job, now, Defaulted(cfg), digest);
    KeptAllIsFiltered(result, run);
    var aggregates := DeriveLiquidationAggregates(job, Of(kept, LiquidationEvents));
    ghost var p := Plan(repos, run, kept, aggregates);
    NothingSent(p);
    calls := WriteSnapshots([], repos, run, kept, p);
    calls := WriteFunding(calls, repos, run, kept, p);
    calls := WriteFlows(calls, repos, run, kept, p);
    calls := WriteLiquidations(calls, repos, run, kept, aggregates, p);
    assert ORDER[..17] == ORDER;
    assert IsPlan(p) && calls == Calls(p);
    SecondValidationFailsIff(p);
    sent := SendAll(calls);
    SentAllIff(calls, sent);
  }

  lemma SentAllIff(calls: seq<Upsert>, sent: nat)
    requires sent <= |calls| && AllAccepted(calls[..sent]) && (sent == |calls| || !Accepts(calls[sent]))
    ensures sent == |calls| <==> AllAccepted(calls)
  {
  }
}
