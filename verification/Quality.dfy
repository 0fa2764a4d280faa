/**
  Normalised items, their validators (internal/normalizers/validation.go) and the quality
  filter in front of the repositories (internal/hardening/validation.go).  Times count
  nanoseconds from the zero time; fields no validator reads are left out.
 */
module Quality {
  import opened Wrappers
  import opened Text
  import opened Decimal

  datatype Meta = Meta(symbolId: int, exchange: string, sourceSymbol: string)

  type Amount = Option<real>

  datatype Item =
    | MarketSnapshot(meta: Meta, at: nat, lastPrice: Amount, markPrice: Amount, indexPrice: Amount, bidPrice: Amount,
                     askPrice: Amount, volume24h: Amount, quoteVolume24h: Amount, openInterest: Amount, fundingRate: Amount)
    | Kline(meta: Meta, at: nat, closeTime: nat, period: string, openPrice: real, highPrice: real, lowPrice: real,
            closePrice: real, volume: Amount, quoteVolume: Amount, takerBuyVolume: Amount, takerBuyQuoteVolume: Amount)
    | OpenInterest(meta: Meta, at: nat, period: string, amount: real, value: Amount)
    | FundingSnapshot(meta: Meta, at: nat, rate: real, markPrice: Amount, indexPrice: Amount)
    | FundingHistory(meta: Meta, at: nat, rate: real, markPrice: Amount)
    | TakerFlow(meta: Meta, at: nat, period: string, buyVolume: Amount, sellVolume: Amount, buyQuoteVolume: Amount,
                sellQuoteVolume: Amount, delta: Amount, deltaQuote: Amount)
    | Cvd(meta: Meta, at: nat, period: string)
    | LiquidationEvent(meta: Meta, at: nat, eventKey: string, side: string, price: Amount, quantity: Amount,
                       notional: Amount, usdValue: Amount)
    | LiquidationAggregate(meta: Meta, at: nat, period: string, longCount: nat, shortCount: nat,
                           longNotional: real, shortNotional: real, totalNotional: real,
                           longUsd: real, shortUsd: real, totalUsd: real, largestUsd: real)
    | LongShortRatio(meta: Meta, at: nat, period: string)
    | BasisPremium(meta: Meta, at: nat, futuresPrice: Amount, markPrice: Amount, indexPrice: Amount, spotPrice: Amount,
                   fundingRate: Amount)
      /** `depths` holds the eleven optional price and depth fields. */
    | OrderbookImbalance(meta: Meta, at: nat, depthLevels: int, depths: seq<Amount>)
    | ExchangeDivergence(meta: Meta, at: nat, dataType: string)

  datatype Job = Job(id: int, sourceSymbol: string, period: string, tier: string)

  // ------------------------------------------------------------------ validators

  predicate ValidSource(meta: Meta) {
    0 < meta.symbolId && Trim(meta.exchange) != "" && Trim(meta.sourceSymbol) != ""
  }

  predicate NonNegative(x: Amount) { x.None? || 0.0 <= x.value }

  predicate ValidFundingRate(x: real) { -1.0 <= x <= 1.0 }

  predicate Digits(s: string) { s != "" && AllDigits(s) }

  predicate After(prefix: string, s: string) { prefix <= s && Digits(s[|prefix|..]) }

  /** The period pattern: digits and a unit, or a unit word and digits. */
  predicate PeriodPattern(s: string) {
    || (s != "" && s[|s| - 1] in "smhdwM" && Digits(s[..|s| - 1]))
    || After("Min", s) || After("Hour", s) || After("Day", s) || After("Week", s) || After("Month", s)
  }

  const UNITS: set<string> := {"s", "m", "h", "d", "w", "M"}
  const WORDS: set<string> := {"Min", "Hour", "Day", "Week", "Month"}

  predicate IsPeriod(s: string, digits: string, text: string) {
    1 <= |digits| && AllDigits(digits) && ((text in UNITS && s == digits + text) || (text in WORDS && s == text + digits))
  }

  /** The forms of a period: digits with a unit behind, or with a word in front. */
  lemma PeriodForms(s: string)
    ensures PeriodPattern(s) <==> exists digits, text :: IsPeriod(s, digits, text)
  {
    hide PeriodPattern, IsPeriod;
    if PeriodPattern(s) { var digits, text := FormOf(s); }
    if digits, text :| IsPeriod(s, digits, text) { FormIsPeriod(s, digits, text); }
  }

  lemma FormIsPeriod(s: string, digits: string, text: string)
    requires IsPeriod(s, digits, text)
    ensures PeriodPattern(s)
  {
    if text in UNITS {
      assert s[..|s| - 1] == digits && s[|s| - 1] == text[0];
    } else {
      assert s[|text|..] == digits && s[..|text|] == text;
    }
  }

  lemma FormOf(s: string) returns (digits: string, text: string)
    requires PeriodPattern(s)
    ensures IsPeriod(s, digits, text)
  {
    if s[|s| - 1] in "smhdwM" && Digits(s[..|s| - 1]) {
      digits, text := s[..|s| - 1], [s[|s| - 1]];
      assert s == digits + text;
    } else {
      text := if After("Min", s) then "Min" else if After("Hour", s) then "Hour" else if After("Day", s) then "Day"
              else if After("Week", s) then "Week" else "Month";
      assert After(text, s);
      digits := s[|text|..];
      assert s == text + digits;
    }
  }

  predicate ValidPeriod(period: string) { Trim(period) == "" || PeriodPattern(Trim(period)) }

  /** The repository's own validator for the item; `history` only concerns open interest. */
  predicate Valid(item: Item, history: bool) {
    && ValidSource(item.meta)
    && 0 < item.at
    && match item
       case MarketSnapshot(_, _, last, mark, index, bid, ask, volume, quote, oi, funding) =>
         && NonNegative(last) && NonNegative(mark) && NonNegative(index) && NonNegative(bid) && NonNegative(ask)
         && NonNegative(volume) && NonNegative(quote) && NonNegative(oi)
         && (funding.Some? ==> ValidFundingRate(funding.value))
       case Kline(_, _, closeTime, period, open, high, low, close, volume, quote, takerBuy, takerBuyQuote) =>
         && ValidPeriod(period) && 0 < closeTime
         && 0.0 <= open && 0.0 <= high && 0.0 <= low && 0.0 <= close
         && NonNegative(volume) && NonNegative(quote) && NonNegative(takerBuy) && NonNegative(takerBuyQuote)
       case OpenInterest(_, _, period, amount, value) =>
         && (history ==> ValidPeriod(period) && Trim(period) != "")
         && 0.0 <= amount && NonNegative(value)
       case FundingSnapshot(_, _, rate, mark, index) => ValidFundingRate(rate) && NonNegative(mark) && NonNegative(index)
       case FundingHistory(_, _, rate, mark) => ValidFundingRate(rate) && NonNegative(mark)
       case TakerFlow(_, _, period, buy, sell, buyQuote, sellQuote, _, _) =>
         && ValidPeriod(period)
         && NonNegative(buy) && NonNegative(sell) && NonNegative(buyQuote) && NonNegative(sellQuote)
       case Cvd(_, _, period) => ValidPeriod(period)
       case LiquidationEvent(_, _, eventKey, side, price, quantity, notional, usd) =>
         && Trim(eventKey) != "" && Trim(side) != ""
         && NonNegative(price) && NonNegative(quantity) && NonNegative(notional) && NonNegative(usd)
       case LiquidationAggregate(_, _, period, _, _, longN, shortN, totalN, longU, shortU, totalU, largest) =>
         && ValidPeriod(period)
         && 0.0 <= longN && 0.0 <= shortN && 0.0 <= totalN
         && 0.0 <= longU && 0.0 <= shortU && 0.0 <= totalU && 0.0 <= largest
       case LongShortRatio(_, _, period) => ValidPeriod(period)
       case BasisPremium(_, _, futures, mark, index, spot, _) =>
         NonNegative(futures) && NonNegative(mark) && NonNegative(index) && NonNegative(spot)
       case OrderbookImbalance(_, _, depthLevels, depths) =>
         0 < depthLevels && forall i :: 0 <= i < |depths| ==> NonNegative(depths[i])
       case ExchangeDivergence(_, _, dataType) => Trim(dataType) != ""
  }

  // ------------------------------------------------------------------- the filter

  datatype Config = Config(maxFutureSkew: int, fundingMin: real, fundingMax: real)

  const MINUTE: nat := 60_000_000_000

  function Defaulted(cfg: Config): Config {
    Config(
      if cfg.maxFutureSkew <= 0 then 2 * MINUTE else cfg.maxFutureSkew,
      if cfg.fundingMin == 0.0 && cfg.fundingMax == 0.0 then -0.05 else cfg.fundingMin,
      if cfg.fundingMin == 0.0 && cfg.fundingMax == 0.0 then 0.05 else cfg.fundingMax)
  }

  /** What a filter run depends on; `digest` stands for the SHA-1 of an event's fields. */
  datatype Run = Run(dataType: string, job: Job, now: nat, cfg: Config, digest: Item -> string)

  datatype Issue = Issue(
    exchange: string,
    dataType: string,
    symbolId: int,
    sourceSymbol: string,
    issueType: string,
    observedAt: nat,
    jobId: int)

  predicate SourceAndTimeOk(item: Item, run: Run) {
    && ValidSource(item.meta)
    && (Trim(run.job.sourceSymbol) == "" || Trim(item.meta.sourceSymbol) == Trim(run.job.sourceSymbol))
    && 0 < item.at <= run.now + run.cfg.maxFutureSkew
  }

  predicate IntervalOk(item: Item, job: Job) {
    (item.Kline? || item.TakerFlow? || item.Cvd? || item.LiquidationAggregate? || item.LongShortRatio?) ==>
      Trim(job.period) == "" || Trim(item.period) == Trim(job.period)
  }

  predicate FundingOk(item: Item, cfg: Config) {
    var rate :=
      if item.MarketSnapshot? || item.BasisPremium? then item.fundingRate
      else if item.FundingSnapshot? || item.FundingHistory? then Some(item.rate)
      else None;
    rate.None? || cfg.fundingMin <= rate.value <= cfg.fundingMax
  }

  function InvalidType(item: Item): string {
    match item
    case MarketSnapshot(_, _, _, _, _, _, _, _, _, _, _) => "market_snapshot_invalid"
    case Kline(_, _, _, _, _, _, _, _, _, _, _, _) => "kline_invalid"
    case OpenInterest(_, _, _, _, _) => "open_interest_invalid"
    case FundingSnapshot(_, _, _, _, _) => "funding_invalid"
    case FundingHistory(_, _, _, _) => "funding_history_invalid"
    case TakerFlow(_, _, _, _, _, _, _, _, _) => "taker_flow_invalid"
    case Cvd(_, _, _) => "cvd_invalid"
    case LiquidationEvent(_, _, _, _, _, _, _, _) => "liquidation_event_invalid"
    case LiquidationAggregate(_, _, _, _, _, _, _, _, _, _, _, _) => "liquidation_aggregate_invalid"
    case LongShortRatio(_, _, _) => "long_short_ratio_invalid"
    case BasisPremium(_, _, _, _, _, _, _) => "basis_invalid"
    case OrderbookImbalance(_, _, _, _) => "orderbook_imbalance_invalid"
    case ExchangeDivergence(_, _, _) => "exchange_divergence_invalid"
  }

  predicate History(run: Run) { run.dataType == "open_interest_history" }

  /** A liquidation event without a key gets one. */
  function Prepared(item: Item, run: Run): Item {
    if item.LiquidationEvent? && Trim(item.eventKey) == "" then item.(eventKey := "liq:" + run.digest(item)) else item
  }

  /** None: keep the item. Some: the type of the issue raised instead. */
  function Fault(item: Item, run: Run): Option<string> {
    if !SourceAndTimeOk(item, run) then Some(InvalidType(item))
    else if !IntervalOk(item, run.job) then Some("interval_mismatch")
    else if !FundingOk(item, run.cfg) then Some("funding_out_of_range")
    else if !Valid(item, History(run)) then Some(InvalidType(item))
    else None
  }

  function IssueFor(item: Item, run: Run, issueType: string): Issue {
    Issue(Lower(Trim(item.meta.exchange)), run.dataType, item.meta.symbolId, Trim(item.meta.sourceSymbol), issueType, run.now, run.job.id)
  }

  function Kept(items: seq<Item>, run: Run): seq<Item> {
    if items == [] then []
    else
      var init, item := Kept(items[..|items| - 1], run), Prepared(items[|items| - 1], run);
      if Fault(item, run).None? then init + [item] else init
  }

  function Issues(items: seq<Item>, run: Run): seq<Issue> {
    if items == [] then []
    else
      var init, item := Issues(items[..|items| - 1], run), Prepared(items[|items| - 1], run);
      if Fault(item, run).None? then init else init + [IssueFor(item, run, Fault(item, run).value)]
  }

  /**
    An order-keeping partition: item i becomes the next kept item or the next issue,
    and nothing else is produced.
   */
  lemma {:induction false} FilterPartitions(items: seq<Item>, run: Run, i: nat)
    requires i < |items|
    ensures |Kept(items, run)| + |Issues(items, run)| == |items|
    ensures |Kept(items[..i], run)| + |Issues(items[..i], run)| == i
    ensures var item := Prepared(items[i], run);
            var k, n := |Kept(items[..i], run)|, |Issues(items[..i], run)|;
            if Fault(item, run).None?
            then k < |Kept(items, run)| && Kept(items, run)[k] == item
            else n < |Issues(items, run)| && Issues(items, run)[n] == IssueFor(item, run, Fault(item, run).value)
  {
    hide Fault, Prepared, IssueFor;
    var last := |items| - 1;
    if i < last {
      assert items[..last][..i] == items[..i];
      FilterPartitions(items[..last], run, i);
    } else if 0 < last {
      FilterPartitions(items[..last], run, 0);
    }
  }

  lemma PreparedTwice(item: Item, run: Run)
    ensures Prepared(Prepared(item, run), run) == Prepared(item, run)
  {
    hide TrimRight;
    if item.LiquidationEvent? { TrimRightKeepsHead("liq:" + run.digest(item)); }
  }

  ghost predicate AllPass(items: seq<Item>, run: Run) {
    forall i :: 0 <= i < |items| ==> Fault(items[i], run).None? && Prepared(items[i], run) == items[i]
  }

  /** Everything kept passes the filter, and with it the repository's validator, once more. */
  lemma {:induction false} KeptPasses(items: seq<Item>, run: Run)
    ensures AllPass(Kept(items, run), run)
    ensures forall i :: 0 <= i < |Kept(items, run)| ==> Valid(Kept(items, run)[i], History(run))
  {
    hide Prepared, Valid, SourceAndTimeOk, IntervalOk, FundingOk;
    if items != [] {
      KeptPasses(items[..|items| - 1], run);
      PreparedTwice(items[|items| - 1], run);
    }
  }

  lemma {:induction false} PassingIsKept(items: seq<Item>, run: Run)
    requires AllPass(items, run)
    ensures Kept(items, run) == items && Issues(items, run) == []
  {
    hide Prepared, Fault;
    if items != [] { PassingIsKept(items[..|items| - 1], run); }
  }

  /** Filtering what was kept keeps all of it and raises nothing. */
  lemma FilterTwice(items: seq<Item>, run: Run)
    ensures Kept(Kept(items, run), run) == Kept(items, run) && Issues(Kept(items, run), run) == []
  {
    KeptPasses(items, run);
    PassingIsKept(Kept(items, run), run);
  }

  // -------------------------------------------------------------- rule by rule

  /** Every price, volume, notional or depth of an item. */
  function Amounts(item: Item): seq<Amount> {
    match item
    case MarketSnapshot(_, _, last, mark, index, bid, ask, volume, quote, oi, _) => [last, mark, index, bid] + [ask, volume, quote, oi]
    case Kline(_, _, _, _, open, high, low, close, volume, quote, takerBuy, takerBuyQuote) =>
      [Some(open), Some(high), Some(low), Some(close)] + [volume, quote, takerBuy, takerBuyQuote]
    case OpenInterest(_, _, _, amount, value) => [Some(amount), value]
    case FundingSnapshot(_, _, _, mark, index) => [mark, index]
    case FundingHistory(_, _, _, mark) => [mark]
    case TakerFlow(_, _, _, buy, sell, buyQuote, sellQuote, _, _) => [buy, sell, buyQuote, sellQuote]
    case LiquidationEvent(_, _, _, _, price, quantity, notional, usd) => [price, quantity, notional, usd]
    case LiquidationAggregate(_, _, _, _, _, longN, shortN, totalN, longU, shortU, totalU, largest) =>
      [Some(longN), Some(shortN), Some(totalN), Some(largest)] + [Some(longU), Some(shortU), Some(totalU)]
    case BasisPremium(_, _, futures, mark, index, spot, _) => [futures, mark, index, spot]
    case OrderbookImbalance(_, _, _, depths) => depths
    case _ => []
  }

  function FundingRate(item: Item): Amount {
    match item
    case MarketSnapshot(_, _, _, _, _, _, _, _, _, _, rate) => rate
    case FundingSnapshot(_, _, rate, _, _) => Some(rate)
    case FundingHistory(_, _, rate, _) => Some(rate)
    case BasisPremium(_, _, _, _, _, _, rate) => rate
    case _ => None
  }

  /** The period of a kind that is collected per period. */
  function PeriodOf(item: Item): Option<string> {
    if item.Kline? || item.TakerFlow? || item.Cvd? || item.LiquidationAggregate? || item.LongShortRatio? then Some(item.period) else None
  }

  /** Texts that must not be blank. */
  function Names(item: Item): seq<string> {
    [item.meta.exchange, item.meta.sourceSymbol]
    + (if item.LiquidationEvent? then [item.eventKey, item.side] else if item.ExchangeDivergence? then [item.dataType] else [])
  }

  predicate NoneNegative(xs: seq<Amount>) { forall x :: x in xs ==> x.None? || x.value >= 0.0 }

  predicate NoneBlank(names: seq<string>) { forall name :: name in names ==> Trim(name) != "" }

  lemma FewAmounts(a: Amount, b: Amount, c: Amount, d: Amount)
    ensures NoneNegative([]) && (NoneNegative([a]) <==> NonNegative(a)) && (NoneNegative([a, b]) <==> NonNegative(a) && NonNegative(b))
    ensures NoneNegative([a, b, c]) <==> NonNegative(a) && NonNegative(b) && NonNegative(c)
    ensures NoneNegative([a, b, c, d]) <==> NonNegative(a) && NonNegative(b) && NonNegative(c) && NonNegative(d)
  {
    assert [a][0] == a && [a, b][0] == a && [a, b][1] == b && [a, b, c][0] == a && [a, b, c][1] == b && [a, b, c][2] == c;
    assert [a, b, c, d][0] == a && [a, b, c, d][1] == b && [a, b, c, d][2] == c && [a, b, c, d][3] == d;
  }

  lemma MoreAmounts(xs: seq<Amount>, ys: seq<Amount>)
    ensures NoneNegative(xs + ys) <==> NoneNegative(xs) && NoneNegative(ys)
  {
    assert forall x :: x in xs + ys <==> x in xs || x in ys;
  }

  lemma FewNames(a: string, b: string, more: seq<string>)
    requires |more| <= 2
    ensures NoneBlank([a, b] + more) <==>
            && Trim(a) != "" && Trim(b) != ""
            && (|more| >= 1 ==> Trim(more[0]) != "") && (|more| == 2 ==> Trim(more[1]) != "")
  {
    hide Trim;
    var names := [a, b] + more;
    assert names[0] == a && names[1] == b && forall i :: 0 <= i < |more| ==> names[2 + i] == more[i];
  }

  predicate Extra(item: Item) {
    && (item.LiquidationEvent? ==> Trim(item.eventKey) != "" && Trim(item.side) != "")
    && (item.ExchangeDivergence? ==> Trim(item.dataType) != "")
  }

  lemma NamesByKind(item: Item)
    ensures NoneBlank(Names(item)) <==> Trim(item.meta.exchange) != "" && Trim(item.meta.sourceSymbol) != "" && Extra(item)
  {
    hide Trim, NoneBlank;
    var meta := item.meta;
    if item.LiquidationEvent? {
      FewNames(meta.exchange, meta.sourceSymbol, [item.eventKey, item.side]);
    } else if item.ExchangeDivergence? {
      FewNames(meta.exchange, meta.sourceSymbol, [item.dataType]);
    } else {
      FewNames(meta.exchange, meta.sourceSymbol, []);
    }
  }

  /** The rules of the repositories' validators. */
  predicate KeepsRules(item: Item, history: bool) {
    && 1 <= item.meta.symbolId && 1 <= item.at
    && NoneBlank(Names(item))
    && NoneNegative(Amounts(item))
    && (FundingRate(item).Some? && !item.BasisPremium? ==> -1.0 <= FundingRate(item).value <= 1.0)
    && (PeriodOf(item).Some? ==> ValidPeriod(PeriodOf(item).value))
    && (item.OpenInterest? && history ==> Trim(item.period) != "" && PeriodPattern(Trim(item.period)))
    && (item.Kline? ==> 1 <= item.closeTime) && (item.OrderbookImbalance? ==> 1 <= item.depthLevels)
  }

  /** What the validators demand, rule by rule instead of kind by kind. */
  lemma ValidByRule(item: Item, history: bool)
    ensures Valid(item, history) <==> KeepsRules(item, history)
  {
    hide Valid, KeepsRules;
    if item.MarketSnapshot? || item.Kline? || item.LiquidationAggregate? {
      WideByRule(item, history);
    } else if item.OpenInterest? || item.FundingSnapshot? || item.FundingHistory? || item.TakerFlow? {
      SeriesByRule(item, history);
    } else {
      OtherByRule(item, history);
    }
  }

  lemma WideByRule(item: Item, history: bool)
    requires item.MarketSnapshot? || item.Kline? || item.LiquidationAggregate?
    ensures Valid(item, history) <==> KeepsRules(item, history)
  {
    hide Trim, PeriodPattern, NoneNegative, NoneBlank, Names;
    NamesByKind(item);
    match item {
      case MarketSnapshot(_, _, last, mark, index, bid, ask, volume, quote, oi, _) =>
        MoreAmounts([last, mark, index, bid], [ask, volume, quote, oi]);
        FewAmounts(last, mark, index, bid);
        FewAmounts(ask, volume, quote, oi);
      case Kline(_, _, _, _, open, high, low, close, volume, quote, takerBuy, takerBuyQuote) =>
        MoreAmounts([Some(open), Some(high), Some(low), Some(close)], [volume, quote, takerBuy, takerBuyQuote]);
        FewAmounts(Some(open), Some(high), Some(low), Some(close));
        FewAmounts(volume, quote, takerBuy, takerBuyQuote);
      case LiquidationAggregate(_, _, _, _, _, longN, shortN, totalN, longU, shortU, totalU, largest) =>
        MoreAmounts([Some(longN), Some(shortN), Some(totalN), Some(largest)], [Some(longU), Some(shortU), Some(totalU)]);
        FewAmounts(Some(longN), Some(shortN), Some(totalN), Some(largest));
        FewAmounts(Some(longU), Some(shortU), Some(totalU), None);
    }
  }

  lemma SeriesByRule(item: Item, history: bool)
    requires item.OpenInterest? || item.FundingSnapshot? || item.FundingHistory? || item.TakerFlow?
    ensures Valid(item, history) <==> KeepsRules(item, history)
  {
    hide Trim, PeriodPattern, NoneNegative, NoneBlank, Names;
    NamesByKind(item);
    match item {
      case OpenInterest(_, _, _, amount, value) => FewAmounts(Some(amount), value, None, None);
      case FundingSnapshot(_, _, _, mark, index) => FewAmounts(mark, index, None, None);
      case FundingHistory(_, _, _, mark) => FewAmounts(mark, None, None, None);
      case TakerFlow(_, _, _, buy, sell, buyQuote, sellQuote, _, _) => FewAmounts(buy, sell, buyQuote, sellQuote);
    }
  }

  lemma OtherByRule(item: Item, history: bool)
    requires item.Cvd? || item.LiquidationEvent? || item.LongShortRatio? || item.BasisPremium? || item.OrderbookImbalance? || item.ExchangeDivergence?
    ensures Valid(item, history) <==> KeepsRules(item, history)
  {
    hide Trim, PeriodPattern, NoneNegative, NoneBlank, Names;
    NamesByKind(item);
    match item {
      case LiquidationEvent(_, _, _, _, price, quantity, notional, usd) => FewAmounts(price, quantity, notional, usd);
      case BasisPremium(_, _, futures, mark, index, spot, _) => FewAmounts(futures, mark, index, spot);
      case OrderbookImbalance(_, _, _, depths) => DepthAmounts(depths);
      case _ => FewAmounts(None, None, None, None);
    }
  }

  lemma DepthAmounts(depths: seq<Amount>)
    ensures NoneNegative(depths) <==> forall i :: 0 <= i < |depths| ==> NonNegative(depths[i])
  {
  }

  /** What the filter demands on top: the job's symbol and period, no time too far ahead, and sane funding. */
  lemma KeptIff(item: Item, run: Run)
    ensures Fault(item, run).None? <==>
            && Valid(item, run.dataType == "open_interest_history")
            && (Trim(run.job.sourceSymbol) != "" ==> Trim(item.meta.sourceSymbol) == Trim(run.job.sourceSymbol))
            && item.at <= run.now + run.cfg.maxFutureSkew
            && (PeriodOf(item).Some? && Trim(run.job.period) != "" ==> Trim(PeriodOf(item).value) == Trim(run.job.period))
            && (FundingRate(item).Some? ==> run.cfg.fundingMin <= FundingRate(item).value <= run.cfg.fundingMax)
  {
    hide Trim, Valid, ValidSource;
    if Valid(item, History(run)) { ValidBasics(item, History(run)); }
  }

  lemma ValidBasics(item: Item, history: bool)
    requires Valid(item, history)
    ensures ValidSource(item.meta) && 0 < item.at
  {
  }

  /** The default limits: two minutes ahead, five percent either way; given limits are kept. */
  lemma DefaultLimits(cfg: Config)
    ensures cfg.maxFutureSkew >= 1 ==> Defaulted(cfg).maxFutureSkew == cfg.maxFutureSkew
    ensures cfg.maxFutureSkew <= 0 ==> Defaulted(cfg).maxFutureSkew == 120 * 1_000_000_000
    ensures var d := Defaulted(cfg);
            if cfg.fundingMin == cfg.fundingMax == 0.0 then d.fundingMax == 0.05 && d.fundingMin == -0.05
            else d.fundingMin == cfg.fundingMin && d.fundingMax == cfg.fundingMax
  {
  }

  // ----------------------------------------------------------------- all kinds

  datatype Kind =
    | MarketSnapshots | Klines | OpenInterests | FundingSnapshots | FundingHistories | TakerFlows | Cvds
    | LiquidationEvents | LiquidationAggregates | LongShortRatios | BasisPremiums | OrderbookImbalances
    | ExchangeDivergences

  function KindOf(item: Item): Kind {
    match item
    case MarketSnapshot(_, _, _, _, _, _, _, _, _, _, _) => MarketSnapshots
    case Kline(_, _, _, _, _, _, _, _, _, _, _, _) => Klines
    case OpenInterest(_, _, _, _, _) => OpenInterests
    case FundingSnapshot(_, _, _, _, _) => FundingSnapshots
    case FundingHistory(_, _, _, _) => FundingHistories
    case TakerFlow(_, _, _, _, _, _, _, _, _) => TakerFlows
    case Cvd(_, _, _) => Cvds
    case LiquidationEvent(_, _, _, _, _, _, _, _) => LiquidationEvents
    case LiquidationAggregate(_, _, _, _, _, _, _, _, _, _, _, _) => LiquidationAggregates
    case LongShortRatio(_, _, _) => LongShortRatios
    case BasisPremium(_, _, _, _, _, _, _) => BasisPremiums
    case OrderbookImbalance(_, _, _, _) => OrderbookImbalances
    case ExchangeDivergence(_, _, _) => ExchangeDivergences
  }

  /** The filter's order. */
  const KINDS: seq<Kind> := [
    MarketSnapshots, Klines, OpenInterests, FundingSnapshots, FundingHistories, TakerFlows, Cvds,
    LiquidationEvents, LiquidationAggregates, LongShortRatios, BasisPremiums, OrderbookImbalances,
    ExchangeDivergences]

  /** A NormalizedResult: one list of items for each kind. */
  type Batch = map<Kind, seq<Item>>

  function Of(batch: Batch, k: Kind): seq<Item> { if k in batch then batch[k] else [] }

  ghost predicate WellKinded(result: Batch) {
    forall k, i :: 0 <= i < |Of(result, k)| ==> KindOf(Of(result, k)[i]) == k
  }

  function KeptOf(kinds: seq<Kind>, result: Batch, run: Run): Batch { map k | k in kinds :: Kept(Of(result, k), run) }

  function KeptAll(result: Batch, run: Run): Batch { KeptOf(KINDS, result, run) }

  function AllIssues(kinds: seq<Kind>, result: Batch, run: Run): seq<Issue> {
    if kinds == [] then []
    else AllIssues(kinds[..|kinds| - 1], result, run) + Issues(Of(result, kinds[|kinds| - 1]), run)
  }

  /** One of the thirteen loops of FilterNormalizedResult. */
  method FilterItems(items: seq<Item>, run: Run) returns (valid: seq<Item>, issues: seq<Issue>)
    ensures valid == Kept(items, run) && issues == Issues(items, run)
  {
    hide Valid, SourceAndTimeOk, IntervalOk, FundingOk, IssueFor, Trim;
    valid, issues := [], [];
    var i := 0;
    while i < |items|
      invariant 0 <= i <= |items|
      invariant valid == Kept(items[..i], run) && issues == Issues(items[..i], run)
    {
      assert items[..i + 1][..i] == items[..i];
      var item := items[i];
      if item.LiquidationEvent? && Trim(item.eventKey) == "" {
        item := item.(eventKey := "liq:" + run.digest(item));
      }
      if !SourceAndTimeOk(item, run) {
        issues := issues + [IssueFor(item, run, InvalidType(item))];
      } else if !IntervalOk(item, run.job) {
        issues := issues + [IssueFor(item, run, "interval_mismatch")];
      } else if !FundingOk(item, run.cfg) {
        issues := issues + [IssueFor(item, run, "funding_out_of_range")];
      } else if !Valid(item, History(run)) {
        issues := issues + [IssueFor(item, run, InvalidType(item))];
      } else {
        valid := valid + [item];
      }
      i := i + 1;
    }
    assert items[..i] == items;
  }

  /** The loops in order, each with its own list of kept items and a shared list of issues. */
  method FilterKinds(kinds: seq<Kind>, result: Batch, run: Run) returns (valid: Batch, issues: seq<Issue>)
    ensures valid == KeptOf(kinds, result, run) && issues == AllIssues(kinds, result, run)
  {
    hide KeptOf, AllIssues;
    valid, issues := map[], [];
    NoKinds(result, run);
    var i := 0;
    while i < |kinds|
      invariant 0 <= i <= |kinds|
      invariant valid == KeptOf(kinds[..i], result, run) && issues == AllIssues(kinds[..i], result, run)
    {
      assert kinds[..i + 1] == kinds[..i] + [kinds[i]];
      OneMoreKind(kinds[..i], kinds[i], result, run);
      var v, n := FilterItems(Of(result, kinds[i]), run);
      valid := valid[kinds[i] := v];
      issues := issues + n;
      i := i + 1;
    }
    assert kinds[..i] == kinds;
  }

  method FilterNormalizedResult(result: Batch, dataType: string, job: Job, now: nat, cfg: Config, digest: Item -> string)
    returns (valid: Batch, issues: seq<Issue>)
    ensures var run := Run(dataType, job, now, Defaulted(cfg), digest);
            valid == KeptAll(result, run) && issues == AllIssues(KINDS, result, run)
  {
    hide KeptOf, AllIssues, Defaulted;
    valid, issues := FilterKinds(KINDS, result, Run(dataType, job, now, Defaulted(cfg), digest));
  }

  lemma NoKinds(result: Batch, run: Run)
    ensures KeptOf([], result, run) == map[] && AllIssues([], result, run) == []
  {
  }

  lemma OneMoreKind(kinds: seq<Kind>, k: Kind, result: Batch, run: Run)
    ensures KeptOf(kinds + [k], result, run) == KeptOf(kinds, result, run)[k := Kept(Of(result, k), run)]
    ensures AllIssues(kinds + [k], result, run) == AllIssues(kinds, result, run) + Issues(Of(result, k), run)
  {
    hide Kept, Issues;
    assert (kinds + [k])[..|kinds|] == kinds;
  }
}
