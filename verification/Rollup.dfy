/**
  Kline rollup (internal/retention/rollup.go): the grouping query of UpsertKlineRollup
  and the upsert itself, on derivative_klines keyed by its unique index.

  Instants are microseconds, Postgres' resolution.
 */
module Rollup {
  import opened Wrappers
  import Decimal
  import Modular

  const SECOND: int := 1_000_000

  /** The unique index (symbol_id, exchange, interval, open_time). */
  datatype Key = Key(symbolId: int, exchange: string, interval: string, openTime: int)

  /** The five nullable columns that are summed. */
  datatype Sums = Sums(
    volume: Option<real>,
    quoteVolume: Option<real>,
    tradeCount: Option<int>,
    takerBuyVolume: Option<real>,
    takerBuyQuoteVolume: Option<real>)

  datatype Market = Market(marketType: string, sourceSymbol: string)

  datatype Candle = Candle(
    market: Market,
    closeTime: int,
    open: real,
    high: real,
    low: real,
    close: real,
    sums: Sums,
    closed: bool)

  type Table = map<Key, Candle>

  datatype Spec = Spec(target: string, bucketSeconds: int)

  /** klineRollups. */
  function SpecFor(interval: string): Option<Spec> {
    if interval == "1m" then Some(Spec("5m", 5 * 60))
    else if interval == "5m" then Some(Spec("15m", 15 * 60))
    else if interval == "15m" then Some(Spec("1h", 60 * 60))
    else if interval == "1h" then Some(Spec("4h", 4 * 60 * 60))
    else if interval == "4h" then Some(Spec("1d", 24 * 60 * 60))
    else None
  }

  // ------------------------------------------------------------------- aggregates

  /** SUM skips nulls, and is null only when all values are. */
  function AddReal(a: Option<real>, b: Option<real>): Option<real> {
    if a.None? then b else if b.None? then a else Some(a.value + b.value)
  }

  function AddInt(a: Option<int>, b: Option<int>): Option<int> {
    if a.None? then b else if b.None? then a else Some(a.value + b.value)
  }

  function AddSums(a: Sums, b: Sums): Sums {
    Sums(AddReal(a.volume, b.volume), AddReal(a.quoteVolume, b.quoteVolume), AddInt(a.tradeCount, b.tradeCount),
         AddReal(a.takerBuyVolume, b.takerBuyVolume), AddReal(a.takerBuyQuoteVolume, b.takerBuyQuoteVolume))
  }

  /** A price and the open_time that orders it in array_agg. */
  datatype Stamped = Stamped(at: int, price: real)

  /** Ties cannot arise inside a group (open_time is unique there); breaking them keeps `Merge` commutative. */
  predicate Leq(a: Stamped, b: Stamped) { a.at < b.at || (a.at == b.at && a.price <= b.price) }

  datatype Agg = Agg(first: Stamped, last: Stamped, high: real, low: real, closeTime: int, sums: Sums)

  function Unit(k: Key, c: Candle): Agg {
    Agg(Stamped(k.openTime, c.open), Stamped(k.openTime, c.close), c.high, c.low, c.closeTime, c.sums)
  }

  function Merge(a: Agg, b: Agg): Agg {
    Agg(if Leq(a.first, b.first) then a.first else b.first,
        if Leq(a.last, b.last) then b.last else a.last,
        if a.high < b.high then b.high else a.high,
        if b.low < a.low then b.low else a.low,
        if a.closeTime < b.closeTime then b.closeTime else a.closeTime,
        AddSums(a.sums, b.sums))
  }

  lemma MergeLaws(a: Agg, b: Agg, c: Agg)
    ensures Merge(a, b) == Merge(b, a)
    ensures Merge(Merge(a, b), c) == Merge(a, Merge(b, c))
  {
  }

  /** The aggregate columns over a non-empty group of rows. */
  ghost function Fold(t: Table, group: set<Key>): Agg
    requires group != {} && group <= t.Keys
  {
    var k :| k in group;
    if group == {k} then Unit(k, t[k])
    else
      assert group - {k} != {};
      Merge(Unit(k, t[k]), Fold(t, group - {k}))
  }

  /** The order in which rows are folded does not matter. */
  lemma {:induction false} FoldPick(t: Table, group: set<Key>, k: Key)
    requires k in group && group <= t.Keys && group != {k}
    ensures group - {k} != {} && Fold(t, group) == Merge(Unit(k, t[k]), Fold(t, group - {k}))
    decreases group
  {
    assert group == group - {k} + {k};
    var j :| j in group && group - {j} != {} && Fold(t, group) == Merge(Unit(j, t[j]), Fold(t, group - {j}));
    if j != k {
      var rest := group - {j} - {k};
      assert rest == group - {k} - {j};
      if rest == {} {
        assert group - {j} == {k} && group - {k} == {j};
        assert Fold(t, {k}) == Unit(k, t[k]) && Fold(t, {j}) == Unit(j, t[j]);
        MergeLaws(Unit(j, t[j]), Unit(k, t[k]), Unit(k, t[k]));
      } else {
        assert group - {j} != {k} && group - {k} != {j};
        FoldPick(t, group - {j}, k);
        FoldPick(t, group - {k}, j);
        hide Merge;
        MergeLaws(Unit(j, t[j]), Unit(k, t[k]), Fold(t, rest));
        MergeLaws(Unit(k, t[k]), Unit(j, t[j]), Fold(t, rest));
      }
    }
  }

  lemma {:induction false} FoldUnion(t: Table, a: set<Key>, b: set<Key>)
    requires a != {} && b != {} && a !! b && a + b <= t.Keys
    ensures Fold(t, a + b) == Merge(Fold(t, a), Fold(t, b))
    decreases a
  {
    var k :| k in a;
    FoldPick(t, a + b, k);
    if a == {k} {
      assert a + b - {k} == b;
    } else {
      var a' := a - {k};
      assert a + b - {k} == a' + b;
      FoldPick(t, a, k);
      FoldUnion(t, a', b);
      hide Merge;
      MergeLaws(Unit(k, t[k]), Fold(t, a'), Fold(t, b));
    }
  }

  /** Two tables that agree on a group give it the same aggregates. */
  lemma {:induction false} FoldAgree(t: Table, u: Table, group: set<Key>)
    requires group != {} && group <= t.Keys && group <= u.Keys
    requires forall k :: k in group ==> t[k] == u[k]
    ensures Fold(t, group) == Fold(u, group)
    decreases group
  {
    var k :| k in group;
    if group != {k} {
      FoldPick(t, group, k);
      FoldPick(u, group, k);
      FoldAgree(t, u, group - {k});
    }
  }

  // SUM over a list: null when every value is, else the total of the others.

  function Total(vs: seq<Option<real>>): real {
    if vs == [] then 0.0 else (if vs[0].Some? then vs[0].value else 0.0) + Total(vs[1..])
  }

  function Sum(vs: seq<Option<real>>): Option<real> {
    if forall i :: 0 <= i < |vs| ==> vs[i].None? then None else Some(Total(vs))
  }

  lemma SumStep(vs: seq<Option<real>>)
    requires vs != []
    ensures Sum(vs) == AddReal(vs[0], Sum(vs[1..]))
  {
    var rest := vs[1..];
    assert forall i :: 0 < i < |vs| ==> vs[i] == rest[i - 1];
    if Sum(rest).None? { AllNullTotal(rest); }
  }

  lemma {:induction false} AllNullTotal(vs: seq<Option<real>>)
    requires forall i :: 0 <= i < |vs| ==> vs[i].None?
    ensures Total(vs) == 0.0
  {
    if vs != [] { AllNullTotal(vs[1..]); }
  }

  datatype SumColumn = Volume | QuoteVolume | TradeCount | TakerBuyVolume | TakerBuyQuoteVolume

  function ValueOf(s: Sums, c: SumColumn): Option<real> {
    match c
    case Volume => s.volume
    case QuoteVolume => s.quoteVolume
    case TradeCount => if s.tradeCount.None? then None else Some(s.tradeCount.value as real)
    case TakerBuyVolume => s.takerBuyVolume
    case TakerBuyQuoteVolume => s.takerBuyQuoteVolume
  }

  /** The values of one column, row by row. */
  function Column(t: Table, ks: seq<Key>, c: SumColumn): seq<Option<real>>
    requires forall i :: 0 <= i < |ks| ==> ks[i] in t
  {
    seq(|ks|, i requires 0 <= i < |ks| => ValueOf(t[ks[i]].sums, c))
  }

  function Keys(ks: seq<Key>): set<Key> { set k | k in ks }

  /** The summed columns, in whatever order the rows of the group are listed. */
  lemma {:induction false} FoldSums(t: Table, ks: seq<Key>, c: SumColumn)
    requires ks != [] && (forall i :: 0 <= i < |ks| ==> ks[i] in t) && (forall i, j :: 0 <= i < j < |ks| ==> ks[i] != ks[j])
    ensures Keys(ks) <= t.Keys && ks[0] in Keys(ks)
    ensures ValueOf(Fold(t, Keys(ks)).sums, c) == Sum(Column(t, ks, c))
  {
    hide Sum, Merge, ValueOf;
    var group, k, rest := Keys(ks), ks[0], ks[1..];
    assert k in group;
    SumStep(Column(t, ks, c));
    assert Column(t, ks, c)[1..] == Column(t, rest, c);
    assert Keys(rest) == group - {k} by {
      assert forall j :: j in ks <==> j == k || j in rest;
    }
    if rest == [] {
      assert group == {k};
      NoSum();
    } else {
      assert rest[0] in group - {k};
      FoldSums(t, rest, c);
      FoldPick(t, group, k);
      MergeAddsSums(Unit(k, t[k]), Fold(t, group - {k}), c);
    }
  }

  lemma MergeAddsSums(a: Agg, b: Agg, c: SumColumn)
    ensures ValueOf(Merge(a, b).sums, c) == AddReal(ValueOf(a.sums, c), ValueOf(b.sums, c))
  {
  }

  lemma NoSum()
    ensures Sum([]) == None
  {
  }

  /**
    What the columns mean: the open of the earliest row, the close of the latest, the
    extremes, and the latest close time.
   */
  lemma {:induction false} FoldMeaning(t: Table, group: set<Key>)
    requires group != {} && group <= t.Keys
    ensures var a := Fold(t, group);
            && (exists k :: k in group && a.first == Stamped(k.openTime, t[k].open))
            && (exists k :: k in group && a.last == Stamped(k.openTime, t[k].close))
            && (exists k :: k in group && a.high == t[k].high)
            && (exists k :: k in group && a.low == t[k].low)
            && (exists k :: k in group && a.closeTime == t[k].closeTime)
            && (forall k :: k in group ==>
                  && a.first.at <= k.openTime <= a.last.at
                  && a.low <= t[k].low && t[k].high <= a.high && t[k].closeTime <= a.closeTime)
    decreases group
  {
    var k :| k in group;
    if group == {k} {
      FoldOne(t, k);
    } else {
      hide Fold, Merge;
      FoldPick(t, group, k);
      FoldMeaning(t, group - {k});
      MergeMeaning(Unit(k, t[k]), Fold(t, group - {k}));
    }
  }

  /** Each column comes from one side and bounds both. */
  lemma MergeMeaning(a: Agg, b: Agg)
    ensures var m := Merge(a, b);
            && m.first in {a.first, b.first} && m.first.at <= a.first.at && m.first.at <= b.first.at
            && m.last in {a.last, b.last} && a.last.at <= m.last.at && b.last.at <= m.last.at
            && m.high in {a.high, b.high} && a.high <= m.high && b.high <= m.high
            && m.low in {a.low, b.low} && m.low <= a.low && m.low <= b.low
            && m.closeTime in {a.closeTime, b.closeTime} && a.closeTime <= m.closeTime && b.closeTime <= m.closeTime
  {
  }

  // ---------------------------------------------------------------------- grouping

  /** to_timestamp(floor(epoch / n) * n). */
  function Bucket(at: int, size: int): int
    requires size > 0
  {
    at - at % size
  }

  lemma BucketLaws(a: int, b: int, size: int)
    requires size > 0
    ensures Bucket(a, size) <= a < Bucket(a, size) + size
    ensures a <= b ==> Bucket(a, size) <= Bucket(b, size)
  {
    Modular.RoundDown(a, size);
    if a <= b { Modular.RoundDownMonotone(a, b, size); }
  }

  /** Buckets nest when one size divides the other. */
  lemma BucketNests(at: int, small: int, factor: int)
    requires small > 0 && factor > 0
    ensures small * factor > 0 && Bucket(Bucket(at, small), small * factor) == Bucket(at, small * factor)
  {
    Modular.RoundDownNests(at, small, factor);
  }

  /** The `eligible` rows of the query. */
  function Eligible(t: Table, interval: string, cutoff: int): set<Key> {
    set k | k in t && k.interval == interval && k.openTime < cutoff && t[k].closed
  }

  function TargetKey(k: Key, target: string, size: int): Key
    requires size > 0
  {
    Key(k.symbolId, k.exchange, target, Bucket(k.openTime, size))
  }

  function Targets(source: set<Key>, target: string, size: int): set<Key>
    requires size > 0
  {
    set k | k in source :: TargetKey(k, target, size)
  }

  /** The rows that fall into one target candle. */
  function Members(source: set<Key>, target: string, size: int, tk: Key): set<Key>
    requires size > 0
  {
    set k | k in source && TargetKey(k, target, size) == tk
  }

  /**
    GROUP BY also lists market_type and source_symbol, which the conflict key does not:
    if they differ inside a target candle, two proposed rows collide and the INSERT fails.
   */
  predicate Clash(t: Table, source: set<Key>, size: int)
    requires size > 0 && source <= t.Keys
  {
    exists j, k :: j in source && k in source && TargetKey(j, "", size) == TargetKey(k, "", size) && t[j].market != t[k].market
  }

  ghost function NewRow(t: Table, group: set<Key>): Candle
    requires group != {} && group <= t.Keys
  {
    var k :| k in group;
    var a := Fold(t, group);
    Candle(t[k].market, a.closeTime, a.first.price, a.high, a.low, a.last.price, a.sums, true)
  }

  /** The rows the `grouped` query proposes. */
  ghost function NewRows(t: Table, source: set<Key>, target: string, size: int): Table
    requires size > 0 && source <= t.Keys
  {
    map tk | tk in Targets(source, target, size) ::
      GroupIsNonEmpty(source, target, size, tk);
      NewRow(t, Members(source, target, size, tk))
  }

  lemma GroupIsNonEmpty(source: set<Key>, target: string, size: int, tk: Key)
    requires size > 0 && tk in Targets(source, target, size)
    ensures Members(source, target, size, tk) != {} && Members(source, target, size, tk) <= source
  {
    var k :| k in source && TargetKey(k, target, size) == tk;
    assert k in Members(source, target, size, tk);
  }

  /** ON CONFLICT DO UPDATE: open_price, market_type and source_symbol are not refreshed. */
  function Refreshed(old': Candle, new': Candle): Candle {
    new'.(open := old'.open, market := old'.market)
  }

  function Upserted(t: Table, rows: Table): Table {
    map k | k in t.Keys + rows.Keys ::
      if k !in rows then t[k] else if k in t then Refreshed(t[k], rows[k]) else rows[k]
  }

  // ---------------------------------------------------- chained rollup keeps meaning

  /** Rolling up freshly: the rows of one interval, below a cutoff, as candles of the next. */
  ghost function Stage(t: Table, interval: string, cutoff: int, target: string, size: int): Table
    requires size > 0
  {
    NewRows(t, Eligible(t, interval, cutoff), target, size)
  }

  ghost predicate OneMarket(t: Table, group: set<Key>)
    requires group <= t.Keys
  {
    forall j, k :: j in group && k in group ==> t[j].market == t[k].market
  }

  /**
    `fine` are candles built from `source`; folding some of them, all of one series, gives
    the columns that folding all their source rows gives.
   */
  ghost predicate Coarser(a: Agg, b: Agg, size: int)
    requires size > 0
  {
    && b.first == Stamped(Bucket(a.first.at, size), a.first.price)
    && b.last == Stamped(Bucket(a.last.at, size), a.last.price)
    && b.high == a.high && b.low == a.low && b.closeTime == a.closeTime && b.sums == a.sums
  }

  ghost predicate OneSeries(keys: set<Key>) {
    forall j, k :: j in keys && k in keys ==> j.symbolId == k.symbolId && j.exchange == k.exchange && j.interval == k.interval
  }

  /** All source rows behind the candles `ds`. */
  function Behind(source: set<Key>, target: string, size: int, ds: set<Key>): set<Key>
    requires size > 0
  {
    set k | k in source && TargetKey(k, target, size) in ds
  }

  lemma UnitIsCoarser(t: Table, source: set<Key>, target: string, size: int, d: Key)
    requires size > 0 && source <= t.Keys && d in Targets(source, target, size)
    ensures var group := Members(source, target, size, d);
            group != {} && Coarser(Fold(t, group), Unit(d, NewRows(t, source, target, size)[d]), size)
  {
    GroupIsNonEmpty(source, target, size, d);
    FoldMeaning(t, Members(source, target, size, d));
  }

  lemma MergeIsCoarser(a: Agg, b: Agg, a': Agg, b': Agg, size: int)
    requires size > 0 && Coarser(a, b, size) && Coarser(a', b', size)
    requires b.first.at != b'.first.at && b.last.at != b'.last.at
    ensures Coarser(Merge(a, a'), Merge(b, b'), size)
  {
    BucketLaws(a.first.at, a'.first.at, size);
    BucketLaws(a'.first.at, a.first.at, size);
    BucketLaws(a.last.at, a'.last.at, size);
    BucketLaws(a'.last.at, a.last.at, size);
  }

  lemma CoarserStep(t: Table, rows: Table, group: set<Key>, behind: set<Key>, d: Key, ds: set<Key>, size: int)
    requires size > 0 && group != {} && behind != {} && group !! behind && group + behind <= t.Keys
    requires ds != {} && d !in ds && ds + {d} <= rows.Keys && OneSeries(ds + {d})
    requires Coarser(Fold(t, group), Unit(d, rows[d]), size) && Coarser(Fold(t, behind), Fold(rows, ds), size)
    ensures Coarser(Fold(t, group + behind), Fold(rows, ds + {d}), size)
  {
    hide Bucket, Merge, Coarser, Fold;
    assert ds + {d} - {d} == ds;
    FoldPick(rows, ds + {d}, d);
    FoldUnion(t, group, behind);
    // The candles differ in their open times, being distinct keys of one series.
    FoldMeaning(rows, ds);
    MergeIsCoarser(Fold(t, group), Unit(d, rows[d]), Fold(t, behind), Fold(rows, ds), size);
  }

  lemma {:induction false} FoldCoarser(t: Table, source: set<Key>, target: string, size: int, ds: set<Key>)
    requires size > 0 && source <= t.Keys
    requires ds != {} && ds <= Targets(source, target, size) && OneSeries(ds)
    ensures var rows, behind := NewRows(t, source, target, size), Behind(source, target, size, ds);
            behind != {} && Coarser(Fold(t, behind), Fold(rows, ds), size)
    decreases ds
  {
    hide Bucket, Merge, Coarser, Fold, NewRow;
    var rows, behind := NewRows(t, source, target, size), Behind(source, target, size, ds);
    var d :| d in ds;
    var group := Members(source, target, size, d);
    UnitIsCoarser(t, source, target, size, d);
    var ds' := ds - {d};
    if ds' == {} {
      assert ds == {d} && behind == group;
      FoldOne(rows, d);
    } else {
      var behind' := Behind(source, target, size, ds');
      FoldCoarser(t, source, target, size, ds');
      assert behind == group + behind' && ds == ds' + {d};
      CoarserStep(t, rows, group, behind', d, ds', size);
    }
  }

  lemma FoldOne(t: Table, k: Key)
    requires k in t
    ensures Fold(t, {k}) == Unit(k, t[k])
  {
  }

  /** Source rows whose fine candle still falls below the second cutoff. */
  function Carried(source: set<Key>, size: int, cutoff: int): set<Key>
    requires size > 0
  {
    set k | k in source && Bucket(k.openTime, size) < cutoff
  }

  /**
    Two stages, with their own cutoffs, on fresh targets: the coarse candles equal those
    of grouping the carried source rows straight into the coarse buckets.
   */
  lemma ChainEqualsDirect(t: Table, interval: string, cutoff1: int, mid: string, size: int, cutoff2: int, target: string, factor: int)
    requires size > 0 && factor > 0 && size * factor > 0
    requires !Clash(t, Eligible(t, interval, cutoff1), size)
    requires !Clash(t, Carried(Eligible(t, interval, cutoff1), size, cutoff2), size * factor)
    ensures Stage(Stage(t, interval, cutoff1, mid, size), mid, cutoff2, target, size * factor)
            == NewRows(t, Carried(Eligible(t, interval, cutoff1), size, cutoff2), target, size * factor)
  {
    hide Bucket, NewRow, NewRows, Members, Targets, Clash;
    var big := size * factor;
    var source := Eligible(t, interval, cutoff1);
    var rows := Stage(t, interval, cutoff1, mid, size);
    var fine, carried := Eligible(rows, mid, cutoff2), Carried(source, size, cutoff2);
    NewRowsAreClosed(t, source, mid, size);
    CarriedTargets(source, size, cutoff2, mid, target, factor, rows);
    var coarse, direct := NewRows(rows, fine, target, big), NewRows(t, carried, target, big);
    NewRowsAreClosed(rows, fine, target, big);
    NewRowsAreClosed(t, carried, target, big);
    forall tk | tk in Targets(carried, target, big) ensures coarse[tk] == direct[tk] {
      CoarseRow(t, source, size, cutoff2, mid, target, factor, tk);
      RowAt(rows, fine, target, big, tk);
      RowAt(t, carried, target, big, tk);
    }
  }

  lemma RowAt(t: Table, source: set<Key>, target: string, size: int, tk: Key)
    requires size > 0 && source <= t.Keys && tk in Targets(source, target, size)
    ensures Members(source, target, size, tk) != {} && Members(source, target, size, tk) <= source
    ensures NewRows(t, source, target, size)[tk] == NewRow(t, Members(source, target, size, tk))
  {
    hide NewRow;
    GroupIsNonEmpty(source, target, size, tk);
  }

  lemma NewRowsAreClosed(t: Table, source: set<Key>, target: string, size: int)
    requires size > 0 && source <= t.Keys
    ensures NewRows(t, source, target, size).Keys == Targets(source, target, size)
    ensures forall k :: k in NewRows(t, source, target, size) ==> NewRows(t, source, target, size)[k].closed
  {
  }

  /** The second stage reads exactly the fine candles of the carried rows. */
  lemma CarriedTargets(source: set<Key>, size: int, cutoff: int, mid: string, target: string, factor: int, rows: Table)
    requires size > 0 && factor > 0 && size * factor > 0
    requires rows.Keys == Targets(source, mid, size) && forall k :: k in rows ==> rows[k].closed
    ensures var fine := Eligible(rows, mid, cutoff);
            && fine == Targets(Carried(source, size, cutoff), mid, size)
            && Targets(fine, target, size * factor) == Targets(Carried(source, size, cutoff), target, size * factor)
  {
    var fine, carried, big := Eligible(rows, mid, cutoff), Carried(source, size, cutoff), size * factor;
    forall k | k in source ensures TargetKey(TargetKey(k, mid, size), target, big) == TargetKey(k, target, big) {
      BucketNests(k.openTime, size, factor);
    }
    forall d | d in fine ensures d in Targets(carried, mid, size) {
      var k :| k in source && TargetKey(k, mid, size) == d;
      assert k in carried;
    }
    forall d | d in Targets(carried, mid, size) ensures d in fine {
      var k :| k in carried && TargetKey(k, mid, size) == d;
    }
    forall tk | tk in Targets(fine, target, big) ensures tk in Targets(carried, target, big) {
      var d :| d in fine && TargetKey(d, target, big) == tk;
      var k :| k in carried && TargetKey(k, mid, size) == d;
    }
    forall tk | tk in Targets(carried, target, big) ensures tk in Targets(fine, target, big) {
      var k :| k in carried && TargetKey(k, target, big) == tk;
      assert TargetKey(k, mid, size) in fine;
    }
  }

  lemma CoarseRow(t: Table, source: set<Key>, size: int, cutoff: int, mid: string, target: string, factor: int, tk: Key)
    requires size > 0 && factor > 0 && size * factor > 0 && source <= t.Keys
    requires !Clash(t, Carried(source, size, cutoff), size * factor)
    requires tk in Targets(Carried(source, size, cutoff), target, size * factor)
    ensures var rows := NewRows(t, source, mid, size);
            var ds := Members(Eligible(rows, mid, cutoff), target, size * factor, tk);
            var group := Members(Carried(source, size, cutoff), target, size * factor, tk);
            ds != {} && group != {} && NewRow(rows, ds) == NewRow(t, group)
  {
    hide Bucket, Fold, Clash, NewRows;
    var big := size * factor;
    var rows, carried := NewRows(t, source, mid, size), Carried(source, size, cutoff);
    NewRowsAreClosed(t, source, mid, size);
    CarriedTargets(source, size, cutoff, mid, target, factor, rows);
    var fine := Eligible(rows, mid, cutoff);
    var ds, group := Members(fine, target, big, tk), Members(carried, target, big, tk);
    GroupIsNonEmpty(carried, target, big, tk);
    GroupIsNonEmpty(fine, target, big, tk);
    FoldCoarser(t, source, mid, size, ds);
    BehindIsGroup(source, size, cutoff, mid, target, factor, rows, tk);
    NoClashOneMarket(t, carried, target, big, tk);
    MarketOfGroup(t, source, size, mid, ds, group);
    SameColumns(t, rows, group, ds, size);
  }

  lemma SameColumns(t: Table, rows: Table, group: set<Key>, ds: set<Key>, size: int)
    requires size > 0 && group != {} && group <= t.Keys && ds != {} && ds <= rows.Keys
    requires Coarser(Fold(t, group), Fold(rows, ds), size)
    requires forall d, k :: d in ds && k in group ==> rows[d].market == t[k].market
    ensures NewRow(rows, ds) == NewRow(t, group)
  {
  }

  lemma NoClashOneMarket(t: Table, source: set<Key>, target: string, size: int, tk: Key)
    requires size > 0 && source <= t.Keys && !Clash(t, source, size)
    ensures OneMarket(t, Members(source, target, size, tk))
  {
  }

  lemma BehindIsGroup(source: set<Key>, size: int, cutoff: int, mid: string, target: string, factor: int, rows: Table, tk: Key)
    requires size > 0 && factor > 0 && size * factor > 0
    requires rows.Keys == Targets(source, mid, size) && forall k :: k in rows ==> rows[k].closed
    ensures Behind(source, mid, size, Members(Eligible(rows, mid, cutoff), target, size * factor, tk))
            == Members(Carried(source, size, cutoff), target, size * factor, tk)
  {
    hide Bucket;
    var ds := Members(Eligible(rows, mid, cutoff), target, size * factor, tk);
    forall k | k in source
      ensures k in Behind(source, mid, size, ds) <==> k in Members(Carried(source, size, cutoff), target, size * factor, tk)
    {
      BucketNests(k.openTime, size, factor);
      assert TargetKey(k, mid, size) in rows;
    }
  }

  /** Every candle carries the market of the rows behind it. */
  lemma MarketOfGroup(t: Table, source: set<Key>, size: int, mid: string, ds: set<Key>, group: set<Key>)
    requires size > 0 && source <= t.Keys && ds != {} && group != {} && ds <= Targets(source, mid, size)
    requires group == Behind(source, mid, size, ds) && OneMarket(t, group)
    ensures forall d, k :: d in ds && k in group ==> NewRows(t, source, mid, size)[d].market == t[k].market
  {
  }

  // ------------------------------------------------ the whole chain of klineRollups

  /** The interval reached after `n` rollups, and its bucket size. */
  function IntervalAfter(interval: string, n: nat): Option<Spec> {
    if n == 0 then None
    else if n == 1 then SpecFor(interval)
    else
      match IntervalAfter(interval, n - 1)
      case None => None
      case Some(spec) => SpecFor(spec.target)
  }

  function Size(spec: Spec): int { spec.bucketSeconds * SECOND }

  /** `n` rollups one after the other, all with one cutoff, each on a fresh target. */
  ghost function Chain(t: Table, interval: string, cutoff: int, n: nat): Table
    requires n >= 1 && IntervalAfter(interval, n).Some?
    decreases n
  {
    SizesArePositive(interval, n);
    var spec := IntervalAfter(interval, n).value;
    if n == 1 then Stage(t, interval, cutoff, spec.target, Size(spec))
    else
      var previous := IntervalAfter(interval, n - 1).value;
      Stage(Chain(t, interval, cutoff, n - 1), previous.target, cutoff, spec.target, Size(spec))
  }

  lemma SizesArePositive(interval: string, n: nat)
    requires IntervalAfter(interval, n).Some?
    ensures n >= 1 && Size(IntervalAfter(interval, n).value) > 0
  {
  }

  /** Each bucket size of the table is a multiple of the one before. */
  lemma SizesNest(spec: Spec) returns (factor: int)
    requires SpecFor(spec.target).Some? && exists i :: SpecFor(i) == Some(spec)
    ensures factor > 0 && Size(SpecFor(spec.target).value) == Size(spec) * factor
  {
    factor := SpecFor(spec.target).value.bucketSeconds / spec.bucketSeconds;
  }

  lemma {:induction false} SpecAfter(interval: string, n: nat)
    requires IntervalAfter(interval, n).Some?
    ensures exists i :: SpecFor(i) == IntervalAfter(interval, n)
  {
  }

  /** Rows that agree on their market per big bucket agree per small bucket. */
  lemma ClashNests(t: Table, source: set<Key>, size: int, factor: int)
    requires size > 0 && factor > 0 && size * factor > 0 && source <= t.Keys
    requires !Clash(t, source, size * factor)
    ensures !Clash(t, source, size)
  {
    hide Bucket;
    forall j, k | j in source && k in source && TargetKey(j, "", size) == TargetKey(k, "", size)
      ensures t[j].market == t[k].market
    {
      BucketNests(j.openTime, size, factor);
      BucketNests(k.openTime, size, factor);
      assert TargetKey(j, "", size * factor) == TargetKey(k, "", size * factor);
    }
  }

  lemma SameCutoffCarriesAll(t: Table, interval: string, size: int, cutoff: int)
    requires size > 0
    ensures Carried(Eligible(t, interval, cutoff), size, cutoff) == Eligible(t, interval, cutoff)
  {
  }

  /**
    Every chain of the table, 1m to 5m to 15m up to 1d, from any starting interval and for
    any cutoff: the last candles equal those of grouping the original rows directly.
   */
  lemma {:induction false} ChainPreservesMeaning(t: Table, interval: string, cutoff: int, n: nat)
    requires n >= 1 && IntervalAfter(interval, n).Some?
    requires Size(IntervalAfter(interval, n).value) > 0
    requires !Clash(t, Eligible(t, interval, cutoff), Size(IntervalAfter(interval, n).value))
    ensures var spec := IntervalAfter(interval, n).value;
            Chain(t, interval, cutoff, n) == Stage(t, interval, cutoff, spec.target, Size(spec))
    decreases n
  {
    hide Bucket, NewRows, Clash, Eligible;
    if n > 1 {
      var previous, spec := IntervalAfter(interval, n - 1).value, IntervalAfter(interval, n).value;
      SizesArePositive(interval, n - 1);
      SpecAfter(interval, n - 1);
      var factor := SizesNest(previous);
      var source := Eligible(t, interval, cutoff);
      EligibleKeys(t, interval, cutoff);
      ClashNests(t, source, Size(previous), factor);
      ChainPreservesMeaning(t, interval, cutoff, n - 1);
      SameCutoffCarriesAll(t, interval, Size(previous), cutoff);
      ChainEqualsDirect(t, interval, cutoff, previous.target, Size(previous), cutoff, spec.target, factor);
    }
  }

  lemma EligibleKeys(t: Table, interval: string, cutoff: int)
    ensures Eligible(t, interval, cutoff) <= t.Keys
  {
  }

  // ------------------------------------------------------------------- the statement

  /** UpsertKlineRollup: None when the INSERT fails on a market clash. */
  ghost function RolledUp(t: Table, interval: string, spec: Spec, cutoff: int): Option<Table>
    requires Size(spec) > 0
  {
    var source := Eligible(t, interval, cutoff);
    if Clash(t, source, Size(spec)) then None
    else Some(Upserted(t, NewRows(t, source, spec.target, Size(spec))))
  }

  /**
    On fresh targets the statement stores exactly the rollup and touches no other row; on
    existing ones it refreshes everything but the open price and the market.
   */
  lemma UpsertMeaning(t: Table, interval: string, spec: Spec, cutoff: int)
    requires Size(spec) > 0 && RolledUp(t, interval, spec, cutoff).Some?
    ensures var t' := RolledUp(t, interval, spec, cutoff).value;
            var rows := NewRows(t, Eligible(t, interval, cutoff), spec.target, Size(spec));
            && t'.Keys == t.Keys + rows.Keys
            && (forall k :: k in t && k.interval != spec.target ==> t'[k] == t[k])
            && (forall k :: k in rows && k !in t ==> t'[k] == rows[k])
            && (forall k :: k in rows && k in t ==> t'[k] == rows[k].(open := t[k].open, market := t[k].market))
  {
  }

  // ------------------------------------------------- what the interval names promise

  /** The length that an interval's name spells, in microseconds. */
  function Length(name: string): int { Decimal.Spelled(name) * 1_000_000 }

  const INTERVALS: seq<string> := ["1m", "5m", "15m", "1h", "4h", "1d"]

  lemma IntervalLengths()
    ensures Length("1m") == 60 * SECOND && Length("5m") == 300 * SECOND && Length("15m") == 900 * SECOND
    ensures Length("1h") == 3600 * SECOND && Length("4h") == 14400 * SECOND && Length("1d") == 86400 * SECOND
  {
    forall name | |name| == 2 && Decimal.IsDigit(name[0])
      ensures Decimal.Spelled(name) == (name[0] as int - '0' as int) * Decimal.SecondsPer(name[1])
    {
      Decimal.SpelledShort(name);
    }
    Decimal.NumberOfTwo('1', '5');
    assert "15m"[..2] == ['1', '5'];
  }

  /**
    Exactly the intervals but the longest roll up, each into the next longer one, with
    buckets as long as that one's name says.
   */
  lemma SpecsFollowNames(interval: string)
    ensures SpecFor(interval).Some? <==> exists i :: 0 <= i < |INTERVALS| - 1 && interval == INTERVALS[i]
    ensures forall i :: 0 <= i < |INTERVALS| - 1 && interval == INTERVALS[i] ==> SpecFor(interval).value.target == INTERVALS[i + 1]
    ensures SpecFor(interval).Some? ==>
            var spec := SpecFor(interval).value; Size(spec) == Length(spec.target) > Length(interval) > 0
  {
    hide Length;
    IntervalLengths();
    if SpecFor(interval).Some? {
      var i := Rank(interval);
      assert interval == INTERVALS[i];
    }
  }

  /** The eligible rows of the candle's series within the time its interval spells. */
  function Inside(t: Table, interval: string, cutoff: int, tk: Key): set<Key> {
    set k | k in Eligible(t, interval, cutoff) && k.symbolId == tk.symbolId && k.exchange == tk.exchange
            && tk.openTime <= k.openTime < tk.openTime + Length(tk.interval)
  }

  predicate OnBoundary(tk: Key) { Length(tk.interval) > 0 && tk.openTime % Length(tk.interval) == 0 }

  lemma BucketIff(at: int, start: int, size: int)
    requires size > 0
    ensures Bucket(at, size) == start <==> start % size == 0 && start <= at < start + size
  {
    Modular.RoundDown(at, size);
    Modular.RoundDown(start, size);
    if start % size == 0 && start <= at < start + size {
      if Bucket(at, size) < start { Modular.MultiplesApart(Bucket(at, size), start, size); }
      if start < Bucket(at, size) { Modular.MultiplesApart(start, Bucket(at, size), size); }
    }
  }

  lemma InsideIsGroup(t: Table, interval: string, spec: Spec, cutoff: int, tk: Key)
    requires SpecFor(interval) == Some(spec) && Size(spec) > 0 && tk.interval == spec.target && OnBoundary(tk)
    ensures Inside(t, interval, cutoff, tk) == Members(Eligible(t, interval, cutoff), spec.target, Size(spec), tk)
  {
    hide Bucket, Length, SpecFor, Size;
    SpecsFollowNames(interval);
    forall k ensures Bucket(k, Size(spec)) == tk.openTime <==> tk.openTime <= k < tk.openTime + Size(spec) {
      BucketIff(k, tk.openTime, Size(spec));
    }
  }

  /** Which candles a rollup writes: those with a row inside. */
  lemma WritesIff(t: Table, interval: string, spec: Spec, cutoff: int, tk: Key)
    requires SpecFor(interval) == Some(spec) && Size(spec) > 0
    ensures tk in Targets(Eligible(t, interval, cutoff), spec.target, Size(spec)) <==>
            tk.interval == spec.target && OnBoundary(tk) && Inside(t, interval, cutoff, tk) != {}
  {
    hide Bucket, Length, SpecFor, Size, Inside;
    var source := Eligible(t, interval, cutoff);
    SpecsFollowNames(interval);
    if tk in Targets(source, spec.target, Size(spec)) {
      var k :| k in source && TargetKey(k, spec.target, Size(spec)) == tk;
      BucketIff(k.openTime, tk.openTime, Size(spec));
      GroupIsNonEmpty(source, spec.target, Size(spec), tk);
    }
    if tk.interval == spec.target && OnBoundary(tk) { InsideIsGroup(t, interval, spec, cutoff, tk); }
  }

  /** What the statement leaves in a candle it writes, given the aggregates of the rows inside. */
  ghost predicate Holds(u: Candle, old': Option<Candle>, a: Agg) {
    && u.open == (if old'.Some? then old'.value.open else a.first.price)
    && u.close == a.last.price && u.high == a.high && u.low == a.low && u.closeTime == a.closeTime && u.sums == a.sums && u.closed
  }

  /**
    The rollup in its own terms: it writes the target candles that have an eligible row of
    their series within the time their interval spells, each from exactly those rows, and
    touches nothing else.
   */
  lemma RollupCoversIntervals(t: Table, interval: string, spec: Spec, cutoff: int, tk: Key)
    requires SpecFor(interval) == Some(spec) && Size(spec) > 0 && RolledUp(t, interval, spec, cutoff).Some?
    ensures var u, rows := RolledUp(t, interval, spec, cutoff).value, Inside(t, interval, cutoff, tk);
            if tk.interval == spec.target && OnBoundary(tk) && rows != {} then
              && tk in u && Holds(u[tk], if tk in t then Some(t[tk]) else None, Fold(t, rows))
              && (if tk in t then u[tk].market == t[tk].market else forall k :: k in rows ==> u[tk].market == t[k].market)
            else
              (tk in u <==> tk in t) && (tk in u ==> u[tk] == t[tk])
  {
    hide Bucket, Length, SpecFor, Size, Fold, Inside, OnBoundary, Eligible;
    var source := Eligible(t, interval, cutoff);
    EligibleKeys(t, interval, cutoff);
    WritesIff(t, interval, spec, cutoff, tk);
    NewRowsAreClosed(t, source, spec.target, Size(spec));
    if tk in Targets(source, spec.target, Size(spec)) {
      RowAt(t, source, spec.target, Size(spec), tk);
      InsideIsGroup(t, interval, spec, cutoff, tk);
      NoClashOneMarket(t, source, spec.target, Size(spec), tk);
    }
  }

  // ------------------------------------------------------- the chain on the one table

  /** `n` statements one after the other, all on the one table. */
  ghost function ChainUp(t: Table, interval: string, cutoff: int, n: nat): Option<Table>
    requires n >= 1 && IntervalAfter(interval, n).Some?
    decreases n
  {
    SizesArePositive(interval, n);
    var spec := IntervalAfter(interval, n).value;
    if n == 1 then RolledUp(t, interval, spec, cutoff)
    else
      match ChainUp(t, interval, cutoff, n - 1)
      case None => None
      case Some(t') => RolledUp(t', IntervalAfter(interval, n - 1).value.target, spec, cutoff)
  }

  function OfInterval(t: Table, interval: string): Table {
    map k | k in t && k.interval == interval :: t[k]
  }

  /** The position of an interval in the chain. */
  function Rank(interval: string): int {
    match interval
    case "1m" => 0
    case "5m" => 1
    case "15m" => 2
    case "1h" => 3
    case "4h" => 4
    case "1d" => 5
    case _ => -1
  }

  lemma RankSteps(interval: string)
    requires SpecFor(interval).Some?
    ensures Rank(SpecFor(interval).value.target) == Rank(interval) + 1
  {
  }

  /** The table holds no row of the intervals the chain writes. */
  ghost predicate NoTargets(t: Table, interval: string, n: nat) {
    forall k, i :: k in t && 1 <= i <= n && IntervalAfter(interval, i).Some? ==> k.interval != IntervalAfter(interval, i).value.target
  }

  /** A rollup sees only the rows of its source interval. */
  lemma StageSees(t: Table, u: Table, interval: string, cutoff: int, target: string, size: int)
    requires size > 0 && OfInterval(t, interval) == OfInterval(u, interval)
    ensures Eligible(t, interval, cutoff) == Eligible(u, interval, cutoff)
    ensures Clash(t, Eligible(t, interval, cutoff), size) <==> Clash(u, Eligible(u, interval, cutoff), size)
    ensures Stage(t, interval, cutoff, target, size) == Stage(u, interval, cutoff, target, size)
  {
    hide Bucket, Fold, NewRows;
    var source := Eligible(t, interval, cutoff);
    forall k | k in t && k.interval == interval ensures k in u && u[k] == t[k] { assert k in OfInterval(t, interval); }
    forall k | k in u && k.interval == interval ensures k in t && u[k] == t[k] { assert k in OfInterval(u, interval); }
    assert source == Eligible(u, interval, cutoff);
    NewRowsAgree(t, u, source, target, size);
  }

  lemma NewRowsAgree(t: Table, u: Table, source: set<Key>, target: string, size: int)
    requires size > 0 && source <= t.Keys && source <= u.Keys && forall k :: k in source ==> t[k] == u[k]
    ensures NewRows(t, source, target, size) == NewRows(u, source, target, size)
  {
    hide Bucket, NewRows;
    NewRowsAreClosed(t, source, target, size);
    NewRowsAreClosed(u, source, target, size);
    forall tk | tk in Targets(source, target, size) ensures NewRows(t, source, target, size)[tk] == NewRows(u, source, target, size)[tk] {
      RowAt(t, source, target, size, tk);
      RowAt(u, source, target, size, tk);
      FoldAgree(t, u, Members(source, target, size, tk));
    }
  }

  /** On a table without rows of the target, the statement leaves exactly the fresh rollup there. */
  lemma RollupOnFresh(t: Table, interval: string, spec: Spec, cutoff: int)
    requires Size(spec) > 0 && (forall k :: k in t ==> k.interval != spec.target) && !Clash(t, Eligible(t, interval, cutoff), Size(spec))
    ensures var u := RolledUp(t, interval, spec, cutoff);
            && u.Some? && OfInterval(u.value, spec.target) == Stage(t, interval, cutoff, spec.target, Size(spec))
            && (forall k :: k in t ==> k in u.value && u.value[k] == t[k])
            && (forall k :: k in u.value && k !in t ==> k.interval == spec.target)
  {
    hide Bucket, NewRows, Clash;
    var source := Eligible(t, interval, cutoff);
    NewRowsAreClosed(t, source, spec.target, Size(spec));
  }

  /** Candles of rows without a clash do not clash either. */
  lemma StageDoesNotClash(t: Table, interval: string, mid: string, size: int, factor: int, cutoff: int)
    requires size > 0 && factor > 0 && size * factor > 0 && !Clash(t, Eligible(t, interval, cutoff), size * factor)
    ensures var rows := Stage(t, interval, cutoff, mid, size); !Clash(rows, Eligible(rows, mid, cutoff), size * factor)
  {
    hide Bucket, Fold, NewRows;
    var source, rows, big := Eligible(t, interval, cutoff), Stage(t, interval, cutoff, mid, size), size * factor;
    NewRowsAreClosed(t, source, mid, size);
    forall d, e | d in rows && e in rows && TargetKey(d, "", big) == TargetKey(e, "", big) ensures rows[d].market == rows[e].market {
      var k := MarketOfCandle(t, source, mid, size, d);
      var l := MarketOfCandle(t, source, mid, size, e);
      BucketNests(k.openTime, size, factor);
      BucketNests(l.openTime, size, factor);
      assert TargetKey(k, "", big) == TargetKey(l, "", big);
    }
  }

  lemma MarketOfCandle(t: Table, source: set<Key>, mid: string, size: int, d: Key) returns (k: Key)
    requires size > 0 && source <= t.Keys && d in Targets(source, mid, size)
    ensures k in source && TargetKey(k, mid, size) == d && d in NewRows(t, source, mid, size)
    ensures NewRows(t, source, mid, size)[d].market == t[k].market
  {
    hide Fold;
    RowAt(t, source, mid, size, d);
    k :| k in Members(source, mid, size, d) && NewRow(t, Members(source, mid, size, d)).market == t[k].market;
  }

  /**
    The chain as the code runs it, every statement on the one table: with no rows of the
    target intervals to start with, it goes through, leaves all rows as they were, and the
    last candles are those of grouping the original rows directly.
   */
  lemma {:induction false} ChainOnOneTable(t: Table, interval: string, cutoff: int, n: nat)
    requires n >= 1 && IntervalAfter(interval, n).Some? && NoTargets(t, interval, n)
    requires Size(IntervalAfter(interval, n).value) > 0
    requires !Clash(t, Eligible(t, interval, cutoff), Size(IntervalAfter(interval, n).value))
    ensures var spec, u := IntervalAfter(interval, n).value, ChainUp(t, interval, cutoff, n);
            && u.Some? && OfInterval(u.value, spec.target) == Stage(t, interval, cutoff, spec.target, Size(spec))
            && (forall k :: k in t ==> k in u.value && u.value[k] == t[k])
            && (forall k :: k in u.value && k !in t ==> Rank(k.interval) <= Rank(spec.target))
    decreases n
  {
    hide Bucket, NewRows, Clash, Eligible, RolledUp, Rank, Size, SpecFor, Stage, OfInterval;
    var spec := IntervalAfter(interval, n).value;
    if n == 1 {
      RollupOnFresh(t, interval, spec, cutoff);
    } else {
      var previous := IntervalAfter(interval, n - 1).value;
      SizesArePositive(interval, n - 1);
      SpecAfter(interval, n - 1);
      var factor := SizesNest(previous);
      EligibleKeys(t, interval, cutoff);
      ClashNests(t, Eligible(t, interval, cutoff), Size(previous), factor);
      ChainOnOneTable(t, interval, cutoff, n - 1);
      var u := ChainUp(t, interval, cutoff, n - 1).value;
      var rows := Stage(t, interval, cutoff, previous.target, Size(previous));
      StageIsOneInterval(t, interval, cutoff, previous.target, Size(previous));
      StageDoesNotClash(t, interval, previous.target, Size(previous), factor, cutoff);
      OfIntervalTwice(u, previous.target);
      StageSees(u, rows, previous.target, cutoff, spec.target, Size(spec));
      RankSteps(previous.target);
      RollupOnFresh(u, previous.target, spec, cutoff);
      SameCutoffCarriesAll(t, interval, Size(previous), cutoff);
      StageIsNewRows(t, interval, cutoff, spec.target, Size(spec));
      ChainEqualsDirect(t, interval, cutoff, previous.target, Size(previous), cutoff, spec.target, factor);
    }
  }

  lemma OfIntervalTwice(t: Table, interval: string)
    ensures OfInterval(OfInterval(t, interval), interval) == OfInterval(t, interval)
  {
  }

  lemma StageIsNewRows(t: Table, interval: string, cutoff: int, target: string, size: int)
    requires size > 0
    ensures Eligible(t, interval, cutoff) <= t.Keys
    ensures Stage(t, interval, cutoff, target, size) == NewRows(t, Eligible(t, interval, cutoff), target, size)
  {
  }

  lemma StageIsOneInterval(t: Table, interval: string, cutoff: int, target: string, size: int)
    requires size > 0
    ensures OfInterval(Stage(t, interval, cutoff, target, size), target) == Stage(t, interval, cutoff, target, size)
  {
    hide NewRow;
  }

  // -------------------------------------------------------------------- across runs

  predicate SameCandle(j: Key, k: Key, size: int)
    requires size > 0
  {
    TargetKey(j, "", size) == TargetKey(k, "", size)
  }

  /** A later rollup leaves a candle as it is when no eligible row of it is left. */
  lemma UnsplitCandlesSurvive(t: Table, interval: string, spec: Spec, cutoff: int, d: Key)
    requires Size(spec) > 0 && RolledUp(t, interval, spec, cutoff).Some? && TargetKey(d, spec.target, Size(spec)) in t
    requires forall j :: j in Eligible(t, interval, cutoff) ==> !SameCandle(j, d, Size(spec))
    ensures var tk, t' := TargetKey(d, spec.target, Size(spec)), RolledUp(t, interval, spec, cutoff).value;
            tk in t' && t'[tk] == t[tk]
  {
    hide Bucket, NewRow;
    var tk := TargetKey(d, spec.target, Size(spec));
    forall j | j in Eligible(t, interval, cutoff) ensures TargetKey(j, spec.target, Size(spec)) != tk {
      assert !SameCandle(j, d, Size(spec));
    }
  }

  const DEMO_CANDLE := Candle(Market("perp", "X"), 0, 1.0, 2.0, 1.0, 1.0, Sums(None, None, None, None, None), true)

  function DemoKey(interval: string, at: int): Key { Key(1, "e", interval, at) }

  /** An early row with high 2 and a late one with high 1. */
  function DemoTable(interval: string, early: int, late: int): Table {
    map[DemoKey(interval, early) := DEMO_CANDLE, DemoKey(interval, late) := DEMO_CANDLE.(high := 1.0)]
  }

  /**
    For every rollup of the table, and any two rows of one candle: once the early row is
    rolled up (high 2) and deleted without the late one, the next run overwrites the candle
    from the late row (high 1).
   */
  lemma SplitBucketLosesRows(interval: string, spec: Spec, early: int, late: int, cutoff: int, later: int)
    requires SpecFor(interval) == Some(spec) && Size(spec) > 0
    requires early < late && Bucket(early, Size(spec)) == Bucket(late, Size(spec)) && early < cutoff && late < later
    ensures var tk := TargetKey(DemoKey(interval, early), spec.target, Size(spec));
            var first := RolledUp(DemoTable(interval, early, late), interval, spec, cutoff);
            && first.Some? && tk in first.value && first.value[tk].high == 2.0
            && var second := RolledUp(first.value - {DemoKey(interval, early)}, interval, spec, later);
               second.Some? && tk in second.value && second.value[tk].high == 1.0
  {
    hide Bucket, RolledUp, Fold, Size, SpecFor;
    TargetIsOther(interval);
    FirstRollupIsHigh(interval, spec, early, late, cutoff);
    NextRollupIsLow(interval, spec, early, late, cutoff, later);
  }

  lemma TargetIsOther(interval: string)
    requires SpecFor(interval).Some?
    ensures SpecFor(interval).value.target != interval
  {
  }

  lemma FirstRollupIsHigh(interval: string, spec: Spec, early: int, late: int, cutoff: int)
    requires Size(spec) > 0 && spec.target != interval
    requires early < late && Bucket(early, Size(spec)) == Bucket(late, Size(spec)) && early < cutoff
    ensures var k, t := DemoKey(interval, early), DemoTable(interval, early, late);
            var tk, first := TargetKey(k, spec.target, Size(spec)), RolledUp(t, interval, spec, cutoff);
            && first.Some? && first.value.Keys == t.Keys + {tk} && first.value[tk].high == 2.0
            && (forall j :: j in t && j != tk ==> first.value[j] == t[j])
  {
    hide Bucket, RolledUp, Fold, Size;
    var t, k, l := DemoTable(interval, early, late), DemoKey(interval, early), DemoKey(interval, late);
    assert Eligible(t, interval, cutoff) == if late < cutoff then {k, l} else {k};
    OneCandleRollup(t, interval, spec, cutoff, TargetKey(k, spec.target, Size(spec)));
    FoldMeaning(t, Eligible(t, interval, cutoff));
  }

  lemma NextRollupIsLow(interval: string, spec: Spec, early: int, late: int, cutoff: int, later: int)
    requires Size(spec) > 0 && spec.target != interval
    requires early < late && Bucket(early, Size(spec)) == Bucket(late, Size(spec)) && early < cutoff && late < later
    requires RolledUp(DemoTable(interval, early, late), interval, spec, cutoff).Some?
    ensures var k, tk := DemoKey(interval, early), TargetKey(DemoKey(interval, early), spec.target, Size(spec));
            var t1 := RolledUp(DemoTable(interval, early, late), interval, spec, cutoff).value - {k};
            var second := RolledUp(t1, interval, spec, later);
            second.Some? && tk in second.value && second.value[tk].high == 1.0
  {
    hide Bucket, RolledUp, Fold, Size;
    var t, k, l := DemoTable(interval, early, late), DemoKey(interval, early), DemoKey(interval, late);
    FirstRollupIsHigh(interval, spec, early, late, cutoff);
    var t1 := RolledUp(t, interval, spec, cutoff).value - {k};
    assert Eligible(t1, interval, later) == {l};
    OneCandleRollup(t1, interval, spec, later, TargetKey(k, spec.target, Size(spec)));
    FoldMeaning(t1, {l});
  }

  /** A rollup whose rows all fall into one candle of one market. */
  lemma OneCandleRollup(t: Table, interval: string, spec: Spec, cutoff: int, tk: Key)
    requires Size(spec) > 0 && Eligible(t, interval, cutoff) != {} && OneMarket(t, Eligible(t, interval, cutoff))
    requires forall k :: k in Eligible(t, interval, cutoff) ==> TargetKey(k, spec.target, Size(spec)) == tk
    ensures var t' := RolledUp(t, interval, spec, cutoff);
            && t'.Some? && t'.value.Keys == t.Keys + {tk} && t'.value[tk].high == Fold(t, Eligible(t, interval, cutoff)).high
            && (forall j :: j in t && j != tk ==> t'.value[j] == t[j])
  {
    hide Bucket, Fold;
    var source := Eligible(t, interval, cutoff);
    assert Targets(source, spec.target, Size(spec)) == {tk};
    assert Members(source, spec.target, Size(spec), tk) == source;
  }
}
