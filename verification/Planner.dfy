/**
  The job planner (internal/scheduler/planner.go): one job per policy and symbol for the
  current bucket.  The stores are functions of their arguments; they may fail.
 */
module Planner {
  import opened Wrappers
  import opened Text
  import opened Decimal
  import opened Idempotency
  import JobTable
  import Modular

  datatype Policy = Policy(
    exchange: string,
    marketType: string,
    dataType: string,
    tier: string,
    period: string,
    intervalSeconds: int,
    priority: int,
    enabled: bool,
    maxRetry: nat)

  datatype Endpoint = Endpoint(id: int, name: string)

  datatype SymbolMarket = SymbolMarket(symbolId: int, sourceSymbol: string)

  /** `endpoint` is None for data types computed internally. */
  datatype Job = Job(
    exchange: string,
    dataType: string,
    tier: string,
    symbolId: int,
    sourceSymbol: string,
    period: string,
    key: string,
    priority: int,
    scheduledAt: nat,
    maxRetry: nat,
    endpoint: Option<Endpoint>)

  /** PlanResult together with the collected jobs. */
  datatype Plan = Plan(jobs: seq<Job>, skipped: map<string, nat>, reasons: map<string, string>)

  type EndpointStore = (string, string) -> Result<seq<Endpoint>, string>
  type SymbolStore = (string, string, int) -> Result<seq<SymbolMarket>, string>

  const EMPTY := Plan([], map[], map[])

  function EndpointDataType(dataType: string): (string, bool) {
    match Trim(dataType)
    case "orderbook_imbalance" => ("orderbook", true)
    case "liquidation_aggregate" => ("liquidation", true)
    case "aggregated_snapshot" => ("", false)
    case _ => (dataType, true)
  }

  function SymbolLimitForTier(tier: string): int {
    if Lower(Trim(tier)) == "top100" then 100 else 0
  }

  function PolicyKey(p: Policy): string {
    p.exchange + ":" + p.marketType + ":" + p.dataType + ":" + p.tier + ":" + p.period
  }

  function Skip(plan: Plan, key: string, reason: string): Plan {
    plan.(skipped := plan.skipped[key := (if key in plan.skipped then plan.skipped[key] else 0) + 1],
          reasons := if key in plan.reasons then plan.reasons else plan.reasons[key := reason])
  }

  // ------------------------------------------------- planning without the caches

  function JobFor(p: Policy, m: SymbolMarket, bucket: nat, endpoint: Option<Endpoint>): Job {
    Job(p.exchange, p.dataType, p.tier, m.symbolId, m.sourceSymbol, p.period,
        IdempotencyKey(p.exchange, p.dataType, m.symbolId, m.sourceSymbol, p.period, bucket),
        p.priority, bucket, p.maxRetry, endpoint)
  }

  function AddMarket(plan: Plan, p: Policy, m: SymbolMarket, bucket: nat, endpoint: Option<Endpoint>): Plan {
    if Trim(m.sourceSymbol) == "" then Skip(plan, PolicyKey(p), "symbol missing source_symbol")
    else plan.(jobs := plan.jobs + [JobFor(p, m, bucket, endpoint)])
  }

  function AddMarkets(plan: Plan, p: Policy, ms: seq<SymbolMarket>, bucket: nat, endpoint: Option<Endpoint>): Plan {
    if ms == [] then plan
    else AddMarket(AddMarkets(plan, p, ms[..|ms| - 1], bucket, endpoint), p, ms[|ms| - 1], bucket, endpoint)
  }

  function BucketFor(p: Policy, now: nat): nat {
    ScheduledBucket(now, p.intervalSeconds)
  }

  /** The symbol part of a policy, once its endpoint is known. */
  function AddSymbols(plan: Plan, p: Policy, symbols: SymbolStore, now: nat, endpoint: Option<Endpoint>): Result<Plan, string> {
    match symbols(p.tier, p.exchange, SymbolLimitForTier(p.tier))
    case Err(e) => Err(e)
    case Ok(ms) =>
      if ms == [] then Ok(Skip(plan, PolicyKey(p), "no symbols in tier for exchange"))
      else Ok(AddMarkets(plan, p, ms, BucketFor(p, now), endpoint))
  }

  /** One policy, asking the stores every time. */
  function AddPolicy(plan: Plan, p: Policy, endpoints: EndpointStore, symbols: SymbolStore, now: nat): Result<Plan, string> {
    if !p.enabled || p.intervalSeconds <= 0 then Ok(Skip(plan, PolicyKey(p), "policy disabled or interval invalid"))
    else
      var (endpointType, required) := EndpointDataType(p.dataType);
      if !required then AddSymbols(plan, p, symbols, now, None)
      else
        match endpoints(p.exchange, endpointType)
        case Err(e) => Err(e)
        case Ok(found) =>
          if found == [] then Ok(Skip(plan, PolicyKey(p), "no active endpoint for data type"))
          else AddSymbols(plan, p, symbols, now, Some(found[0]))
  }

  function PlanAll(ps: seq<Policy>, endpoints: EndpointStore, symbols: SymbolStore, now: nat): Result<Plan, string> {
    if ps == [] then Ok(EMPTY)
    else
      match PlanAll(ps[..|ps| - 1], endpoints, symbols, now)
      case Err(e) => Err(e)
      case Ok(plan) => AddPolicy(plan, ps[|ps| - 1], endpoints, symbols, now)
  }

  lemma {:induction false} ErrorsStay(ps: seq<Policy>, n: nat, endpoints: EndpointStore, symbols: SymbolStore, now: nat)
    requires n <= |ps| && PlanAll(ps[..n], endpoints, symbols, now).Err?
    ensures PlanAll(ps, endpoints, symbols, now) == PlanAll(ps[..n], endpoints, symbols, now)
  {
    hide AddPolicy;
    if n == |ps| {
      assert ps[..n] == ps;
    } else {
      assert ps[..|ps| - 1][..n] == ps[..n];
      ErrorsStay(ps[..|ps| - 1], n, endpoints, symbols, now);
    }
  }

  // --------------------------------------------------------- planning with the caches

  function EndpointCacheKey(exchange: string, dataType: string): string {
    exchange + ":" + dataType
  }

  function SymbolCacheKey(tier: string, exchange: string, limit: int): string {
    tier + ":" + (exchange + ":" + Itoa(limit))
  }

  type EndpointCache = map<string, seq<Endpoint>>
  type SymbolCache = map<string, seq<SymbolMarket>>

  /** A store behind a cache; an empty list counts as not cached, as a nil slice does. */
  function CachedEndpoints(cache: EndpointCache, store: EndpointStore): EndpointStore {
    (ex: string, dt: string) =>
      var key := EndpointCacheKey(ex, dt);
      if key in cache && cache[key] != [] then Ok(cache[key]) else store(ex, dt)
  }

  function CachedSymbols(cache: SymbolCache, store: SymbolStore): SymbolStore {
    (tier: string, ex: string, limit: int) =>
      var key := SymbolCacheKey(tier, ex, limit);
      if key in cache && cache[key] != [] then Ok(cache[key]) else store(tier, ex, limit)
  }

  predicate Usable(p: Policy) { p.enabled && 0 < p.intervalSeconds }

  predicate NeedsEndpoint(p: Policy) { EndpointDataType(p.dataType).1 }

  function EndpointsOf(p: Policy, endpoints: EndpointStore): Result<seq<Endpoint>, string> {
    endpoints(p.exchange, EndpointDataType(p.dataType).0)
  }

  function SymbolsOf(p: Policy, symbols: SymbolStore): Result<seq<SymbolMarket>, string> {
    symbols(p.tier, p.exchange, SymbolLimitForTier(p.tier))
  }

  function EndpointKeyOf(p: Policy): string { EndpointCacheKey(p.exchange, EndpointDataType(p.dataType).0) }

  function SymbolKeyOf(p: Policy): string { SymbolCacheKey(p.tier, p.exchange, SymbolLimitForTier(p.tier)) }

  /** The policy gets as far as asking for its symbols. */
  predicate AsksSymbols(p: Policy, endpoints: EndpointStore) {
    Usable(p) && (NeedsEndpoint(p) ==> EndpointsOf(p, endpoints).Ok? && EndpointsOf(p, endpoints).value != [])
  }

  /** The caches after one policy. */
  function EndpointsAfter(cache: EndpointCache, p: Policy, endpoints: EndpointStore): EndpointCache {
    var answer := EndpointsOf(p, CachedEndpoints(cache, endpoints));
    if Usable(p) && NeedsEndpoint(p) && answer.Ok? then cache[EndpointKeyOf(p) := answer.value] else cache
  }

  function SymbolsAfter(cache: SymbolCache, p: Policy, endpoints: EndpointStore, symbols: SymbolStore): SymbolCache {
    var answer := SymbolsOf(p, CachedSymbols(cache, symbols));
    if AsksSymbols(p, endpoints) && answer.Ok? then cache[SymbolKeyOf(p) := answer.value] else cache
  }

  function EndpointCacheOf(ps: seq<Policy>, endpoints: EndpointStore): EndpointCache {
    if ps == [] then map[] else EndpointsAfter(EndpointCacheOf(ps[..|ps| - 1], endpoints), ps[|ps| - 1], endpoints)
  }

  function SymbolCacheOf(ps: seq<Policy>, endpoints: EndpointStore, symbols: SymbolStore): SymbolCache {
    if ps == [] then map[]
    else
      var init := ps[..|ps| - 1];
      SymbolsAfter(SymbolCacheOf(init, endpoints, symbols), ps[|ps| - 1], CachedEndpoints(EndpointCacheOf(init, endpoints), endpoints), symbols)
  }

  /** Planning where every policy asks the stores through the caches its predecessors left. */
  function CachedPlan(ps: seq<Policy>, endpoints: EndpointStore, symbols: SymbolStore, now: nat): Result<Plan, string> {
    if ps == [] then Ok(EMPTY)
    else
      var init := ps[..|ps| - 1];
      match CachedPlan(init, endpoints, symbols, now)
      case Err(e) => Err(e)
      case Ok(plan) =>
        AddPolicy(plan, ps[|ps| - 1], CachedEndpoints(EndpointCacheOf(init, endpoints), endpoints),
                  CachedSymbols(SymbolCacheOf(init, endpoints, symbols), symbols), now)
  }

  lemma {:induction false} CachedErrorsStay(ps: seq<Policy>, n: nat, endpoints: EndpointStore, symbols: SymbolStore, now: nat)
    requires n <= |ps| && CachedPlan(ps[..n], endpoints, symbols, now).Err?
    ensures CachedPlan(ps, endpoints, symbols, now) == CachedPlan(ps[..n], endpoints, symbols, now)
  {
    hide AddPolicy;
    if n == |ps| {
      assert ps[..n] == ps;
    } else {
      assert ps[..|ps| - 1][..n] == ps[..n];
      CachedErrorsStay(ps[..|ps| - 1], n, endpoints, symbols, now);
    }
  }

  /** Both caches of one RunAt. */
  class Caches {
    var endpoints: EndpointCache
    var symbols: SymbolCache

    constructor ()
      ensures endpoints == map[] && symbols == map[]
    {
      endpoints, symbols := map[], map[];
    }

    method FindEndpoints(store: EndpointStore, ex: string, dt: string) returns (r: Result<seq<Endpoint>, string>)
      modifies this`endpoints
      ensures r == CachedEndpoints(old(endpoints), store)(ex, dt)
      ensures endpoints == if r.Ok? then old(endpoints)[EndpointCacheKey(ex, dt) := r.value] else old(endpoints)
    {
      var key := EndpointCacheKey(ex, dt);
      if key in endpoints && endpoints[key] != [] {
        return Ok(endpoints[key]);
      }
      r := store(ex, dt);
      if r.Ok? {
        endpoints := endpoints[key := r.value];
      }
    }

    method FindSymbols(store: SymbolStore, tier: string, ex: string, limit: int) returns (r: Result<seq<SymbolMarket>, string>)
      modifies this`symbols
      ensures r == CachedSymbols(old(symbols), store)(tier, ex, limit)
      ensures symbols == if r.Ok? then old(symbols)[SymbolCacheKey(tier, ex, limit) := r.value] else old(symbols)
    {
      var key := SymbolCacheKey(tier, ex, limit);
      if key in symbols && symbols[key] != [] {
        return Ok(symbols[key]);
      }
      r := store(tier, ex, limit);
      if r.Ok? {
        symbols := symbols[key := r.value];
      }
    }
  }

  /** The inner loop over the symbols of a policy. */
  method CollectMarkets(plan: Plan, p: Policy, ms: seq<SymbolMarket>, bucket: nat, endpoint: Option<Endpoint>) returns (r: Plan)
    ensures r == AddMarkets(plan, p, ms, bucket, endpoint)
  {
    hide IdempotencyKey, Trim, PolicyKey;
    r := plan;
    var i := 0;
    while i < |ms|
      invariant 0 <= i <= |ms|
      invariant r == AddMarkets(plan, p, ms[..i], bucket, endpoint)
    {
      assert ms[..i + 1][..i] == ms[..i];
      if Trim(ms[i].sourceSymbol) == "" {
        r := Skip(r, PolicyKey(p), "symbol missing source_symbol");
      } else {
        r := r.(jobs := r.jobs + [JobFor(p, ms[i], bucket, endpoint)]);
      }
      i := i + 1;
    }
    assert ms[..i] == ms;
  }

  /** The body of RunAt's loop. */
  method PlanPolicy(caches: Caches, plan: Plan, p: Policy, endpoints: EndpointStore, symbols: SymbolStore, now: nat)
    returns (r: Result<Plan, string>)
    modifies caches
    ensures r == AddPolicy(plan, p, CachedEndpoints(old(caches.endpoints), endpoints), CachedSymbols(old(caches.symbols), symbols), now)
    ensures caches.endpoints == EndpointsAfter(old(caches.endpoints), p, endpoints)
    ensures caches.symbols == SymbolsAfter(old(caches.symbols), p, CachedEndpoints(old(caches.endpoints), endpoints), symbols)
  {
    hide CachedEndpoints, CachedSymbols, Skip, AddMarkets, PolicyKey, EndpointDataType, SymbolLimitForTier;
    if !p.enabled || p.intervalSeconds <= 0 {
      return Ok(Skip(plan, PolicyKey(p), "policy disabled or interval invalid"));
    }
    var (endpointType, required) := EndpointDataType(p.dataType);
    var endpoint: Option<Endpoint> := None;
    if required {
      var found := caches.FindEndpoints(endpoints, p.exchange, endpointType);
      if found.Err? {
        return Err(found.error);
      }
      if found.value == [] {
        return Ok(Skip(plan, PolicyKey(p), "no active endpoint for data type"));
      }
      endpoint := Some(found.value[0]);
    }
    var limit := SymbolLimitForTier(p.tier);
    var markets := caches.FindSymbols(symbols, p.tier, p.exchange, limit);
    if markets.Err? {
      return Err(markets.error);
    }
    if markets.value == [] {
      return Ok(Skip(plan, PolicyKey(p), "no symbols in tier for exchange"));
    }
    var next := CollectMarkets(plan, p, markets.value, ScheduledBucket(now, p.intervalSeconds), endpoint);
    return Ok(next);
  }

  /** RunAt up to InsertJobs. */
  method RunAt(ps: seq<Policy>, endpoints: EndpointStore, symbols: SymbolStore, now: nat) returns (r: Result<Plan, string>)
    ensures r == CachedPlan(ps, endpoints, symbols, now)
  {
    hide AddPolicy, EndpointsAfter, SymbolsAfter, CachedEndpoints, CachedSymbols;
    var plan := EMPTY;
    var caches := new Caches();
    var i := 0;
    while i < |ps|
      invariant 0 <= i <= |ps| && fresh(caches)
      invariant caches.endpoints == EndpointCacheOf(ps[..i], endpoints) && caches.symbols == SymbolCacheOf(ps[..i], endpoints, symbols)
      invariant CachedPlan(ps[..i], endpoints, symbols, now) == Ok(plan)
    {
      assert ps[..i + 1][..i] == ps[..i];
      var step := PlanPolicy(caches, plan, ps[i], endpoints, symbols, now);
      if step.Err? {
        CachedErrorsStay(ps, i + 1, endpoints, symbols, now);
        return Err(step.error);
      }
      plan := step.value;
      i := i + 1;
    }
    assert ps[..i] == ps;
    return Ok(plan);
  }

  // ------------------------------------------------------- when the caches do not show

  /** Two usable policies whose endpoint lookups differ but share a cache key. */
  predicate EndpointsCollide(p: Policy, q: Policy) {
    Usable(p) && Usable(q) && NeedsEndpoint(p) && NeedsEndpoint(q) && EndpointKeyOf(p) == EndpointKeyOf(q)
    && (p.exchange, EndpointDataType(p.dataType).0) != (q.exchange, EndpointDataType(q.dataType).0)
  }

  predicate SymbolsCollide(p: Policy, q: Policy) {
    Usable(p) && Usable(q) && SymbolKeyOf(p) == SymbolKeyOf(q) && (p.tier, p.exchange) != (q.tier, q.exchange)
  }

  predicate Collide(p: Policy, q: Policy) { EndpointsCollide(p, q) || SymbolsCollide(p, q) }

  ghost predicate NoCollision(ps: seq<Policy>) {
    forall i, j :: 0 <= i < j < |ps| ==> !Collide(ps[i], ps[j])
  }

  /** The store answers this list to a usable policy under this key. */
  predicate EndpointsFrom(p: Policy, endpoints: EndpointStore, key: string, found: seq<Endpoint>) {
    Usable(p) && NeedsEndpoint(p) && EndpointKeyOf(p) == key && EndpointsOf(p, endpoints) == Ok(found)
  }

  predicate SymbolsFrom(p: Policy, symbols: SymbolStore, key: string, found: seq<SymbolMarket>) {
    Usable(p) && SymbolKeyOf(p) == key && SymbolsOf(p, symbols) == Ok(found)
  }

  /** Every cached list is what the store answers to some policy. */
  ghost predicate EndpointsTrue(cache: EndpointCache, ps: seq<Policy>, endpoints: EndpointStore) {
    forall key :: key in cache ==> exists i :: 0 <= i < |ps| && EndpointsFrom(ps[i], endpoints, key, cache[key])
  }

  ghost predicate SymbolsTrue(cache: SymbolCache, ps: seq<Policy>, symbols: SymbolStore) {
    forall key :: key in cache ==> exists i :: 0 <= i < |ps| && SymbolsFrom(ps[i], symbols, key, cache[key])
  }

  ghost predicate CollidesWithNone(p: Policy, ps: seq<Policy>) { forall i :: 0 <= i < |ps| ==> !Collide(ps[i], p) }

  lemma EndpointsRead(cache: EndpointCache, ps: seq<Policy>, endpoints: EndpointStore, p: Policy)
    requires EndpointsTrue(cache, ps, endpoints) && CollidesWithNone(p, ps) && Usable(p) && NeedsEndpoint(p)
    ensures EndpointsOf(p, CachedEndpoints(cache, endpoints)) == EndpointsOf(p, endpoints)
  {
    hide EndpointDataType, SymbolKeyOf;
    if EndpointKeyOf(p) in cache {
      var i :| 0 <= i < |ps| && EndpointsFrom(ps[i], endpoints, EndpointKeyOf(p), cache[EndpointKeyOf(p)]);
      assert !Collide(ps[i], p);
    }
  }

  lemma SymbolsRead(cache: SymbolCache, ps: seq<Policy>, symbols: SymbolStore, p: Policy)
    requires SymbolsTrue(cache, ps, symbols) && CollidesWithNone(p, ps) && Usable(p)
    ensures SymbolsOf(p, CachedSymbols(cache, symbols)) == SymbolsOf(p, symbols)
  {
    hide EndpointDataType, EndpointKeyOf, Itoa, SymbolLimitForTier;
    if SymbolKeyOf(p) in cache {
      var i :| 0 <= i < |ps| && SymbolsFrom(ps[i], symbols, SymbolKeyOf(p), cache[SymbolKeyOf(p)]);
      assert !Collide(ps[i], p);
    }
  }

  lemma SplitLast(ps: seq<Policy>)
    requires ps != []
    ensures NoCollision(ps) <==> NoCollision(ps[..|ps| - 1]) && CollidesWithNone(ps[|ps| - 1], ps[..|ps| - 1])
  {
    hide Collide;
    var init, n := ps[..|ps| - 1], |ps| - 1;
    assert forall i :: 0 <= i < n ==> init[i] == ps[i];
    if NoCollision(ps) {
      forall i | 0 <= i < n ensures !Collide(init[i], ps[n]) { assert !Collide(ps[i], ps[n]); }
    }
  }

  lemma {:induction false} CachesAreTrue(ps: seq<Policy>, endpoints: EndpointStore, symbols: SymbolStore)
    requires NoCollision(ps)
    ensures EndpointsTrue(EndpointCacheOf(ps, endpoints), ps, endpoints) && SymbolsTrue(SymbolCacheOf(ps, endpoints, symbols), ps, symbols)
  {
    hide NoCollision, CollidesWithNone, EndpointsTrue, SymbolsTrue, EndpointsAfter, SymbolsAfter;
    if ps == [] {
      NothingCached(endpoints, symbols);
    } else {
      var init := ps[..|ps| - 1];
      SplitLast(ps);
      CachesAreTrue(init, endpoints, symbols);
      EndpointsStayTrue(EndpointCacheOf(init, endpoints), ps, endpoints);
      SymbolsStayTrue(SymbolCacheOf(init, endpoints, symbols), ps, CachedEndpoints(EndpointCacheOf(init, endpoints), endpoints), symbols);
    }
  }

  lemma NothingCached(endpoints: EndpointStore, symbols: SymbolStore)
    ensures EndpointsTrue(map[], [], endpoints) && SymbolsTrue(map[], [], symbols)
  {
  }

  lemma EndpointsStayTrue(cache: EndpointCache, ps: seq<Policy>, endpoints: EndpointStore)
    requires ps != [] && EndpointsTrue(cache, ps[..|ps| - 1], endpoints) && CollidesWithNone(ps[|ps| - 1], ps[..|ps| - 1])
    ensures EndpointsTrue(EndpointsAfter(cache, ps[|ps| - 1], endpoints), ps, endpoints)
  {
    hide Usable, NeedsEndpoint, EndpointsOf, EndpointKeyOf, CollidesWithNone;
    var init, p := ps[..|ps| - 1], ps[|ps| - 1];
    if Usable(p) && NeedsEndpoint(p) { EndpointsRead(cache, init, endpoints, p); }
    var after := EndpointsAfter(cache, p, endpoints);
    forall key | key in after ensures exists i :: 0 <= i < |ps| && EndpointsFrom(ps[i], endpoints, key, after[key]) {
      if after == cache || key != EndpointKeyOf(p) {
        var i :| 0 <= i < |init| && EndpointsFrom(init[i], endpoints, key, cache[key]);
        assert ps[i] == init[i];
      } else {
        assert EndpointsFrom(ps[|ps| - 1], endpoints, key, after[key]);
      }
    }
  }

  lemma SymbolsStayTrue(cache: SymbolCache, ps: seq<Policy>, endpoints: EndpointStore, symbols: SymbolStore)
    requires ps != [] && SymbolsTrue(cache, ps[..|ps| - 1], symbols) && CollidesWithNone(ps[|ps| - 1], ps[..|ps| - 1])
    ensures SymbolsTrue(SymbolsAfter(cache, ps[|ps| - 1], endpoints, symbols), ps, symbols)
  {
    hide Usable, NeedsEndpoint, SymbolsOf, SymbolKeyOf, CollidesWithNone, EndpointsOf;
    var init, p := ps[..|ps| - 1], ps[|ps| - 1];
    if Usable(p) { SymbolsRead(cache, init, symbols, p); }
    var after := SymbolsAfter(cache, p, endpoints, symbols);
    forall key | key in after ensures exists i :: 0 <= i < |ps| && SymbolsFrom(ps[i], symbols, key, after[key]) {
      if after == cache || key != SymbolKeyOf(p) {
        var i :| 0 <= i < |init| && SymbolsFrom(init[i], symbols, key, cache[key]);
        assert ps[i] == init[i];
      } else {
        assert SymbolsFrom(ps[|ps| - 1], symbols, key, after[key]);
      }
    }
  }

  /** A policy sees the stores through its own lookups alone. */
  lemma AddPolicySees(plan: Plan, p: Policy, e1: EndpointStore, s1: SymbolStore, e2: EndpointStore, s2: SymbolStore, now: nat)
    requires Usable(p) && NeedsEndpoint(p) ==> EndpointsOf(p, e1) == EndpointsOf(p, e2)
    requires Usable(p) ==> SymbolsOf(p, s1) == SymbolsOf(p, s2)
    ensures AddPolicy(plan, p, e1, s1, now) == AddPolicy(plan, p, e2, s2, now)
  {
    hide EndpointDataType, AddMarkets, Skip, PolicyKey, SymbolLimitForTier;
  }

  lemma {:induction false} NoCollisionNoCaches(ps: seq<Policy>, endpoints: EndpointStore, symbols: SymbolStore, now: nat)
    requires NoCollision(ps)
    ensures CachedPlan(ps, endpoints, symbols, now) == PlanAll(ps, endpoints, symbols, now)
  {
    hide NoCollision, CollidesWithNone, AddPolicy, EndpointsTrue, SymbolsTrue, CachedEndpoints, CachedSymbols, EndpointsOf, SymbolsOf;
    if ps != [] {
      var init, p := ps[..|ps| - 1], ps[|ps| - 1];
      SplitLast(ps);
      NoCollisionNoCaches(init, endpoints, symbols, now);
      CachesAreTrue(init, endpoints, symbols);
      if PlanAll(init, endpoints, symbols, now).Ok? {
        if Usable(p) && NeedsEndpoint(p) { EndpointsRead(EndpointCacheOf(init, endpoints), init, endpoints, p); }
        if Usable(p) { SymbolsRead(SymbolCacheOf(init, endpoints, symbols), init, symbols, p); }
        AddPolicySees(PlanAll(init, endpoints, symbols, now).value, p, CachedEndpoints(EndpointCacheOf(init, endpoints), endpoints),
                      CachedSymbols(SymbolCacheOf(init, endpoints, symbols), symbols), endpoints, symbols, now);
      }
    }
  }

  // Stores whose answer tells the question: one endpoint and one market for each.

  function TagEndpoint(ex: string, dt: string): Endpoint { Endpoint(|ex|, ex + dt) }
  function TagMarket(tier: string, ex: string): SymbolMarket { SymbolMarket(|tier|, "x" + (tier + ex)) }

  function TagEndpoints(): EndpointStore { (ex: string, dt: string) => Ok([TagEndpoint(ex, dt)]) }
  function TagSymbols(): SymbolStore { (tier: string, ex: string, limit: int) => Ok([TagMarket(tier, ex)]) }

  lemma TagsTell(a: string, x: string, b: string, y: string)
    ensures TagEndpoint(a, x) == TagEndpoint(b, y) ==> a == b && x == y
    ensures TagMarket(a, x) == TagMarket(b, y) ==> a == b && x == y
  {
    if |a| == |b| && a + x == b + y {
      assert (a + x)[..|a|] == a && (b + y)[..|b|] == b && (a + x)[|a|..] == x && (b + y)[|b|..] == y;
    }
    assert ("x" + (a + x))[1..] == a + x && ("x" + (b + y))[1..] == b + y;
  }

  /** Every cached list holds one tag. */
  ghost predicate Tagged(ec: EndpointCache, sc: SymbolCache) {
    && (forall key :: key in ec ==> exists ex, dt :: ec[key] == [TagEndpoint(ex, dt)])
    && (forall key :: key in sc ==> exists tier, ex :: sc[key] == [TagMarket(tier, ex)])
  }

  /** What a usable policy reads then. */
  lemma TaggedReads(ec: EndpointCache, sc: SymbolCache, p: Policy) returns (e: Endpoint, m: SymbolMarket)
    requires Tagged(ec, sc)
    ensures EndpointsOf(p, CachedEndpoints(ec, TagEndpoints())) == Ok([e]) && SymbolsOf(p, CachedSymbols(sc, TagSymbols())) == Ok([m])
    ensures Trim(m.sourceSymbol) != ""
    ensures exists ex, dt :: e == TagEndpoint(ex, dt)
    ensures exists tier, ex :: m == TagMarket(tier, ex)
    ensures EndpointKeyOf(p) in ec ==> ec[EndpointKeyOf(p)] == [e]
    ensures EndpointKeyOf(p) !in ec ==> e == TagEndpoint(p.exchange, EndpointDataType(p.dataType).0)
    ensures SymbolKeyOf(p) in sc ==> sc[SymbolKeyOf(p)] == [m]
    ensures SymbolKeyOf(p) !in sc ==> m == TagMarket(p.tier, p.exchange)
  {
    hide EndpointDataType, SymbolLimitForTier, EndpointCacheKey, SymbolCacheKey, Trim;
    e := EndpointsOf(p, CachedEndpoints(ec, TagEndpoints())).value[0];
    m := SymbolsOf(p, CachedSymbols(sc, TagSymbols())).value[0];
    var tier, ex :| m == TagMarket(tier, ex);
    NotBlank(tier + ex);
  }

  lemma NotBlank(s: string)
    ensures Trim("x" + s) != ""
  {
    hide TrimRight;
    TrimRightKeepsHead("x" + s);
  }

  /** One job for a usable policy, none for another. */
  lemma OneJob(plan: Plan, p: Policy, endpoints: EndpointStore, symbols: SymbolStore, now: nat, e: Endpoint, m: SymbolMarket)
    requires EndpointsOf(p, endpoints) == Ok([e]) && SymbolsOf(p, symbols) == Ok([m]) && Trim(m.sourceSymbol) != ""
    ensures AddPolicy(plan, p, endpoints, symbols, now).Ok?
    ensures AddPolicy(plan, p, endpoints, symbols, now).value.jobs == plan.jobs
              + if Usable(p) then [JobFor(p, m, BucketFor(p, now), if NeedsEndpoint(p) then Some(e) else None)] else []
  {
    hide EndpointDataType, Trim, PolicyKey, JobFor, BucketFor, SymbolLimitForTier;
    forall endpoint ensures AddMarkets(plan, p, [m], BucketFor(p, now), endpoint).jobs == plan.jobs + [JobFor(p, m, BucketFor(p, now), endpoint)] {
      assert [m][..0] == [];
      assert AddMarkets(plan, p, [], BucketFor(p, now), endpoint) == plan;
    }
  }

  /** The caches of tag stores, and the keys they hold. */
  lemma {:induction false} TagCaches(ps: seq<Policy>)
    ensures var ec, sc := EndpointCacheOf(ps, TagEndpoints()), SymbolCacheOf(ps, TagEndpoints(), TagSymbols());
            && Tagged(ec, sc)
            && (forall i :: 0 <= i < |ps| && Usable(ps[i]) ==> (NeedsEndpoint(ps[i]) ==> EndpointKeyOf(ps[i]) in ec) && SymbolKeyOf(ps[i]) in sc)
  {
    hide EndpointKeyOf, SymbolKeyOf, Usable, NeedsEndpoint, Tagged, EndpointsAfter, SymbolsAfter, CachedEndpoints;
    if ps == [] {
      NothingTagged();
    } else {
      var init, p := ps[..|ps| - 1], ps[|ps| - 1];
      TagCaches(init);
      TagStep(EndpointCacheOf(init, TagEndpoints()), SymbolCacheOf(init, TagEndpoints(), TagSymbols()), p);
      assert forall i :: 0 <= i < |init| ==> init[i] == ps[i];
    }
  }

  lemma NothingTagged()
    ensures Tagged(map[], map[])
  {
  }

  lemma TagStep(ec: EndpointCache, sc: SymbolCache, p: Policy)
    requires Tagged(ec, sc)
    ensures var ec', sc' := EndpointsAfter(ec, p, TagEndpoints()), SymbolsAfter(sc, p, CachedEndpoints(ec, TagEndpoints()), TagSymbols());
            && Tagged(ec', sc') && ec.Keys <= ec'.Keys && sc.Keys <= sc'.Keys
            && (Usable(p) ==> (NeedsEndpoint(p) ==> EndpointKeyOf(p) in ec') && SymbolKeyOf(p) in sc')
  {
    hide EndpointKeyOf, SymbolKeyOf, Usable, NeedsEndpoint, TagEndpoints, TagSymbols, CachedEndpoints, CachedSymbols, EndpointsOf, SymbolsOf,
      TagEndpoint, TagMarket;
    var e, m := TaggedReads(ec, sc, p);
  }

  /** With tag stores the caches show exactly when lookups collide. */
  lemma {:induction false} TagPlans(ps: seq<Policy>, now: nat)
    ensures var cached, plain := CachedPlan(ps, TagEndpoints(), TagSymbols(), now), PlanAll(ps, TagEndpoints(), TagSymbols(), now);
            && cached.Ok? && plain.Ok? && |cached.value.jobs| == |plain.value.jobs|
            && (cached.value.jobs == plain.value.jobs <==> NoCollision(ps))
  {
    hide AddPolicy, NoCollision, CollidesWithNone, Usable, NeedsEndpoint, JobFor, BucketFor, TagEndpoints, TagSymbols,
      EndpointsOf, SymbolsOf, CachedEndpoints, CachedSymbols, Trim;
    if ps == [] {
      NoPolicies();
    } else {
      var init, p := ps[..|ps| - 1], ps[|ps| - 1];
      TagPlans(init, now);
      SplitLast(ps);
      TagCaches(init);
      var ec, sc := EndpointCacheOf(init, TagEndpoints()), SymbolCacheOf(init, TagEndpoints(), TagSymbols());
      var e, m := TaggedReads(ec, sc, p);
      var e0, m0 := PlainReads(p);
      var cached, plain := CachedPlan(init, TagEndpoints(), TagSymbols(), now).value, PlanAll(init, TagEndpoints(), TagSymbols(), now).value;
      OneJob(cached, p, CachedEndpoints(ec, TagEndpoints()), CachedSymbols(sc, TagSymbols()), now, e, m);
      OneJob(plain, p, TagEndpoints(), TagSymbols(), now, e0, m0);
      if NoCollision(init) && Usable(p) {
        JobsTell(p, now, e, m, e0, m0);
        TagsShowCollision(init, p, e, m, e0, m0);
      } else if !Usable(p) {
        UnusableNeverCollides(p, init);
      }
      TailsTell(cached.jobs, plain.jobs, p, now, e, m, e0, m0);
    }
  }

  lemma NoPolicies()
    ensures NoCollision([])
  {
  }

  lemma UnusableNeverCollides(p: Policy, ps: seq<Policy>)
    requires !Usable(p)
    ensures CollidesWithNone(p, ps)
  {
  }

  /** Without a cache a policy reads its own tags. */
  lemma PlainReads(p: Policy) returns (e: Endpoint, m: SymbolMarket)
    ensures e == TagEndpoint(p.exchange, EndpointDataType(p.dataType).0) && m == TagMarket(p.tier, p.exchange)
    ensures EndpointsOf(p, TagEndpoints()) == Ok([e]) && SymbolsOf(p, TagSymbols()) == Ok([m]) && Trim(m.sourceSymbol) != ""
  {
    hide EndpointDataType, Trim;
    e, m := TagEndpoint(p.exchange, EndpointDataType(p.dataType).0), TagMarket(p.tier, p.exchange);
    NotBlank(p.tier + p.exchange);
  }

  lemma JobsTell(p: Policy, now: nat, e: Endpoint, m: SymbolMarket, e0: Endpoint, m0: SymbolMarket)
    ensures var job := (m: SymbolMarket, e: Endpoint) => JobFor(p, m, BucketFor(p, now), if NeedsEndpoint(p) then Some(e) else None);
            job(m, e) == job(m0, e0) <==> m == m0 && (NeedsEndpoint(p) ==> e == e0)
  {
    hide IdempotencyKey, BucketFor, NeedsEndpoint;
  }

  lemma TailsTell(a: seq<Job>, b: seq<Job>, p: Policy, now: nat, e: Endpoint, m: SymbolMarket, e0: Endpoint, m0: SymbolMarket)
    requires |a| == |b|
    ensures var job := (m: SymbolMarket, e: Endpoint) => JobFor(p, m, BucketFor(p, now), if NeedsEndpoint(p) then Some(e) else None);
            a + [job(m, e)] == b + [job(m0, e0)] <==> a == b && job(m, e) == job(m0, e0)
    ensures a + [] == b + [] <==> a == b
  {
    hide JobFor, BucketFor, NeedsEndpoint;
    var job := (m: SymbolMarket, e: Endpoint) => JobFor(p, m, BucketFor(p, now), if NeedsEndpoint(p) then Some(e) else None);
    var x, y := a + [job(m, e)], b + [job(m0, e0)];
    assert x[..|a|] == a && y[..|b|] == b && x[|a|] == job(m, e) && y[|b|] == job(m0, e0);
    assert a + [] == a && b + [] == b;
  }

  /** After policies without collisions, the next one reads its own tags exactly when it collides with none of them. */
  lemma TagsShowCollision(ps: seq<Policy>, p: Policy, e: Endpoint, m: SymbolMarket, e0: Endpoint, m0: SymbolMarket)
    requires NoCollision(ps) && Usable(p)
    requires var ec, sc := EndpointCacheOf(ps, TagEndpoints()), SymbolCacheOf(ps, TagEndpoints(), TagSymbols());
             && (if EndpointKeyOf(p) in ec then ec[EndpointKeyOf(p)] == [e] else e == e0)
             && (if SymbolKeyOf(p) in sc then sc[SymbolKeyOf(p)] == [m] else m == m0)
    requires e0 == TagEndpoint(p.exchange, EndpointDataType(p.dataType).0) && m0 == TagMarket(p.tier, p.exchange)
    ensures CollidesWithNone(p, ps) <==> m == m0 && (NeedsEndpoint(p) ==> e == e0)
  {
    hide NoCollision, EndpointDataType, EndpointKeyOf, SymbolKeyOf, EndpointCacheOf, SymbolCacheOf, EndpointsCollide, SymbolsCollide,
      EndpointsTrue, SymbolsTrue, TagEndpoint, TagMarket, Tagged;
    CachesAreTrue(ps, TagEndpoints(), TagSymbols());
    TagCaches(ps);
    if NeedsEndpoint(p) { EndpointTagIff(EndpointCacheOf(ps, TagEndpoints()), ps, p, e); } else { NoEndpointNoCollision(ps, p); }
    MarketTagIff(SymbolCacheOf(ps, TagEndpoints(), TagSymbols()), ps, p, m);
  }

  lemma NoEndpointNoCollision(ps: seq<Policy>, p: Policy)
    requires !NeedsEndpoint(p)
    ensures forall i :: 0 <= i < |ps| ==> !EndpointsCollide(ps[i], p)
  {
  }

  lemma EndpointTagIff(ec: EndpointCache, ps: seq<Policy>, p: Policy, e: Endpoint)
    requires NoCollision(ps) && Usable(p) && NeedsEndpoint(p) && EndpointsTrue(ec, ps, TagEndpoints())
    requires forall i :: 0 <= i < |ps| && Usable(ps[i]) && NeedsEndpoint(ps[i]) ==> EndpointKeyOf(ps[i]) in ec
    requires if EndpointKeyOf(p) in ec then ec[EndpointKeyOf(p)] == [e] else e == TagEndpoint(p.exchange, EndpointDataType(p.dataType).0)
    ensures (forall i :: 0 <= i < |ps| ==> !EndpointsCollide(ps[i], p)) <==> e == TagEndpoint(p.exchange, EndpointDataType(p.dataType).0)
  {
    hide NoCollision, EndpointDataType, EndpointKeyOf, NeedsEndpoint, Usable, TagEndpoint, EndpointsOf;
    forall i | 0 <= i < |ps| && Usable(ps[i]) && NeedsEndpoint(ps[i]) && EndpointKeyOf(ps[i]) == EndpointKeyOf(p)
      ensures !EndpointsCollide(ps[i], p) <==> e == TagEndpoint(p.exchange, EndpointDataType(p.dataType).0)
    {
      SameEndpointTag(ec, ps, i);
      TagsTell(ps[i].exchange, EndpointDataType(ps[i].dataType).0, p.exchange, EndpointDataType(p.dataType).0);
    }
    if EndpointKeyOf(p) in ec {
      var i :| 0 <= i < |ps| && EndpointsFrom(ps[i], TagEndpoints(), EndpointKeyOf(p), ec[EndpointKeyOf(p)]);
      assert !EndpointsCollide(ps[i], p) <==> e == TagEndpoint(p.exchange, EndpointDataType(p.dataType).0);
    }
  }

  lemma MarketTagIff(sc: SymbolCache, ps: seq<Policy>, p: Policy, m: SymbolMarket)
    requires NoCollision(ps) && Usable(p) && SymbolsTrue(sc, ps, TagSymbols())
    requires forall i :: 0 <= i < |ps| && Usable(ps[i]) ==> SymbolKeyOf(ps[i]) in sc
    requires if SymbolKeyOf(p) in sc then sc[SymbolKeyOf(p)] == [m] else m == TagMarket(p.tier, p.exchange)
    ensures (forall i :: 0 <= i < |ps| ==> !SymbolsCollide(ps[i], p)) <==> m == TagMarket(p.tier, p.exchange)
  {
    hide NoCollision, SymbolKeyOf, Usable, TagMarket, SymbolsOf;
    forall i | 0 <= i < |ps| && Usable(ps[i]) && SymbolKeyOf(ps[i]) == SymbolKeyOf(p)
      ensures !SymbolsCollide(ps[i], p) <==> m == TagMarket(p.tier, p.exchange)
    {
      SameMarketTag(sc, ps, i);
      TagsTell(ps[i].tier, ps[i].exchange, p.tier, p.exchange);
    }
    if SymbolKeyOf(p) in sc {
      var i :| 0 <= i < |ps| && SymbolsFrom(ps[i], TagSymbols(), SymbolKeyOf(p), sc[SymbolKeyOf(p)]);
      assert !SymbolsCollide(ps[i], p) <==> m == TagMarket(p.tier, p.exchange);
    }
  }

  lemma SameEndpointTag(ec: EndpointCache, ps: seq<Policy>, i: nat)
    requires NoCollision(ps) && EndpointsTrue(ec, ps, TagEndpoints())
    requires i < |ps| && Usable(ps[i]) && NeedsEndpoint(ps[i]) && EndpointKeyOf(ps[i]) in ec
    ensures ec[EndpointKeyOf(ps[i])] == [TagEndpoint(ps[i].exchange, EndpointDataType(ps[i].dataType).0)]
  {
    hide EndpointDataType, EndpointKeyOf, SymbolsCollide;
    var k :| 0 <= k < |ps| && EndpointsFrom(ps[k], TagEndpoints(), EndpointKeyOf(ps[i]), ec[EndpointKeyOf(ps[i])]);
    if k < i { assert !Collide(ps[k], ps[i]); } else if i < k { assert !Collide(ps[i], ps[k]); }
  }

  lemma SameMarketTag(sc: SymbolCache, ps: seq<Policy>, i: nat)
    requires NoCollision(ps) && SymbolsTrue(sc, ps, TagSymbols())
    requires i < |ps| && Usable(ps[i]) && SymbolKeyOf(ps[i]) in sc
    ensures sc[SymbolKeyOf(ps[i])] == [TagMarket(ps[i].tier, ps[i].exchange)]
  {
    hide SymbolKeyOf, EndpointsCollide, SymbolLimitForTier;
    var k :| 0 <= k < |ps| && SymbolsFrom(ps[k], TagSymbols(), SymbolKeyOf(ps[i]), sc[SymbolKeyOf(ps[i])]);
    if k < i { assert !Collide(ps[k], ps[i]); } else if i < k { assert !Collide(ps[i], ps[k]); }
  }

  /** Whatever the stores answer, RunAt plans as if it had no caches, exactly when no two lookups collide. */
  lemma CachesDoNotShowIff(ps: seq<Policy>)
    ensures (forall endpoints: EndpointStore, symbols: SymbolStore, now: nat ::
               CachedPlan(ps, endpoints, symbols, now) == PlanAll(ps, endpoints, symbols, now))
            <==> NoCollision(ps)
  {
    hide CachedPlan, PlanAll, NoCollision;
    if NoCollision(ps) {
      forall endpoints: EndpointStore, symbols: SymbolStore, now: nat
        ensures CachedPlan(ps, endpoints, symbols, now) == PlanAll(ps, endpoints, symbols, now)
      {
        NoCollisionNoCaches(ps, endpoints, symbols, now);
      }
    } else {
      TagPlans(ps, 0);
    }
  }

  /** Without colons in exchanges and tiers lookups never collide. */
  lemma ColonFreeNeverCollides(p: Policy, q: Policy)
    requires ColonFree(p.exchange) && ColonFree(p.tier) && ColonFree(q.exchange) && ColonFree(q.tier)
    ensures !Collide(p, q)
  {
    hide EndpointDataType, Itoa, ColonFree, SymbolLimitForTier;
    if EndpointKeyOf(p) == EndpointKeyOf(q) {
      SplitAtColon(p.exchange, EndpointDataType(p.dataType).0, q.exchange, EndpointDataType(q.dataType).0);
    }
    if SymbolKeyOf(p) == SymbolKeyOf(q) {
      var x, y := Itoa(SymbolLimitForTier(p.tier)), Itoa(SymbolLimitForTier(q.tier));
      SplitAtColon(p.tier, p.exchange + ":" + x, q.tier, q.exchange + ":" + y);
      SplitAtColon(p.exchange, x, q.exchange, y);
    }
  }

  /** With them they can: exchange "a:b" with "c", and exchange "a" with "b:c". */
  lemma ColonsCanCollide(p: Policy, q: Policy)
    requires Usable(p) && Usable(q) && p.exchange == "a:b" && p.dataType == "c" && q.exchange == "a" && q.dataType == "b:c"
    ensures Collide(p, q)
  {
    assert Trim("c") == "c" && Trim("b:c") == "b:c";
    assert "a:b" + ":" + "c" == "a" + ":" + "b:c";
  }

  // ------------------------------------------------------------ what gets planned

  /** The endpoint a policy's jobs carry, if it may have jobs at all. */
  function EndpointFor(p: Policy, endpoints: EndpointStore): Option<Option<Endpoint>> {
    var (endpointType, required) := EndpointDataType(p.dataType);
    if !required then Some(None)
    else
      match endpoints(p.exchange, endpointType)
      case Err(_) => None
      case Ok(found) => if found == [] then None else Some(Some(found[0]))
  }

  function MarketsFor(p: Policy, symbols: SymbolStore): seq<SymbolMarket> {
    match symbols(p.tier, p.exchange, SymbolLimitForTier(p.tier))
    case Err(_) => []
    case Ok(ms) => ms
  }

  /** The job is what this policy asks for on this market now. */
  ghost predicate Asks(p: Policy, m: SymbolMarket, endpoints: EndpointStore, symbols: SymbolStore, now: nat, j: Job) {
    && p.enabled && 0 < p.intervalSeconds && EndpointFor(p, endpoints).Some?
    && m in MarketsFor(p, symbols) && Trim(m.sourceSymbol) != ""
    && j == JobFor(p, m, BucketFor(p, now), EndpointFor(p, endpoints).value)
  }

  lemma {:induction false} MarketsAdd(plan: Plan, p: Policy, ms: seq<SymbolMarket>, bucket: nat, endpoint: Option<Endpoint>, j: Job)
    ensures j in AddMarkets(plan, p, ms, bucket, endpoint).jobs <==>
            j in plan.jobs || exists m :: m in ms && Trim(m.sourceSymbol) != "" && j == JobFor(p, m, bucket, endpoint)
  {
    hide Trim, JobFor, PolicyKey;
    if ms != [] {
      assert ms == ms[..|ms| - 1] + [ms[|ms| - 1]];
      MarketsAdd(plan, p, ms[..|ms| - 1], bucket, endpoint, j);
    }
  }

  lemma SymbolsAdd(plan: Plan, p: Policy, symbols: SymbolStore, now: nat, endpoint: Option<Endpoint>, j: Job)
    requires AddSymbols(plan, p, symbols, now, endpoint).Ok?
    ensures j in AddSymbols(plan, p, symbols, now, endpoint).value.jobs <==>
            j in plan.jobs || exists m :: m in MarketsFor(p, symbols) && Trim(m.sourceSymbol) != "" && j == JobFor(p, m, BucketFor(p, now), endpoint)
  {
    hide Trim, JobFor, PolicyKey, AddMarkets, BucketFor, SymbolLimitForTier;
    MarketsAdd(plan, p, MarketsFor(p, symbols), BucketFor(p, now), endpoint, j);
  }

  lemma PolicyAdds(plan: Plan, p: Policy, endpoints: EndpointStore, symbols: SymbolStore, now: nat, j: Job)
    requires AddPolicy(plan, p, endpoints, symbols, now).Ok?
    ensures j in AddPolicy(plan, p, endpoints, symbols, now).value.jobs <==>
            j in plan.jobs || exists m :: Asks(p, m, endpoints, symbols, now, j)
  {
    hide Trim, JobFor, PolicyKey, AddSymbols, BucketFor, MarketsFor, EndpointDataType;
    if p.enabled && 0 < p.intervalSeconds && EndpointFor(p, endpoints).Some? {
      var endpoint := EndpointFor(p, endpoints).value;
      SymbolsAdd(plan, p, symbols, now, endpoint, j);
      if m :| m in MarketsFor(p, symbols) && Trim(m.sourceSymbol) != "" && j == JobFor(p, m, BucketFor(p, now), endpoint) {
        assert Asks(p, m, endpoints, symbols, now, j);
      }
    }
  }

  /** What a policy looks up: at most a hundred symbols for the top tier, and the endpoint of the data a computed type is made from. */
  lemma Lookups(p: Policy)
    ensures SymbolLimitForTier(p.tier) == if Lower(Trim(p.tier)) == "top100" then 100 else 0
    ensures !EndpointDataType(p.dataType).1 <==> Trim(p.dataType) == "aggregated_snapshot"
    ensures EndpointDataType(p.dataType).1 ==>
            EndpointDataType(p.dataType).0 ==
              if Trim(p.dataType) == "orderbook_imbalance" then "orderbook"
              else if Trim(p.dataType) == "liquidation_aggregate" then "liquidation"
              else p.dataType
  {
    hide Trim, Lower;
  }

  /** Skips of different policies are counted apart, as long as their fields hold no colon. */
  lemma PolicyKeysDiffer(p: Policy, q: Policy)
    requires forall s :: s in [p.exchange, p.marketType, p.dataType, p.tier, q.exchange, q.marketType, q.dataType, q.tier] ==> ColonFree(s)
    ensures PolicyKey(p) == PolicyKey(q) <==>
            p.exchange == q.exchange && p.marketType == q.marketType && p.dataType == q.dataType && p.tier == q.tier && p.period == q.period
  {
    hide ColonFree;
    KeyParts(p);
    KeyParts(q);
    if PolicyKey(p) == PolicyKey(q) {
      SplitAtColon(p.exchange, p.marketType + ":" + (p.dataType + ":" + (p.tier + ":" + p.period)),
                   q.exchange, q.marketType + ":" + (q.dataType + ":" + (q.tier + ":" + q.period)));
      SplitAtColon(p.marketType, p.dataType + ":" + (p.tier + ":" + p.period), q.marketType, q.dataType + ":" + (q.tier + ":" + q.period));
      SplitAtColon(p.dataType, p.tier + ":" + p.period, q.dataType, q.tier + ":" + q.period);
      SplitAtColon(p.tier, p.period, q.tier, q.period);
    }
  }

  lemma KeyParts(p: Policy)
    ensures PolicyKey(p) == p.exchange + ":" + (p.marketType + ":" + (p.dataType + ":" + (p.tier + ":" + p.period)))
  {
    assert (((p.exchange + ":") + p.marketType) + ":") + p.dataType == p.exchange + ":" + (p.marketType + ":" + p.dataType);
  }

  /** The plan holds exactly the jobs some policy asks for. */
  lemma {:induction false} PlanIsExact(ps: seq<Policy>, endpoints: EndpointStore, symbols: SymbolStore, now: nat, j: Job)
    requires PlanAll(ps, endpoints, symbols, now).Ok?
    ensures j in PlanAll(ps, endpoints, symbols, now).value.jobs <==>
            exists i, m :: 0 <= i < |ps| && Asks(ps[i], m, endpoints, symbols, now, j)
  {
    hide AddPolicy, Asks;
    if ps != [] {
      var init, last := ps[..|ps| - 1], |ps| - 1;
      var plan := PlanAll(init, endpoints, symbols, now).value;
      PlanIsExact(init, endpoints, symbols, now, j);
      PolicyAdds(plan, ps[last], endpoints, symbols, now, j);
      assert forall i :: 0 <= i < last ==> init[i] == ps[i];
    }
  }

  // ------------------------------------------------------------- what gets skipped

  function Skipped(plan: Plan, key: string): nat { if key in plan.skipped then plan.skipped[key] else 0 }

  /** Markets without a source symbol. */
  function Nameless(ms: seq<SymbolMarket>): nat {
    if ms == [] then 0 else Nameless(ms[..|ms| - 1]) + if Trim(ms[|ms| - 1].sourceSymbol) == "" then 1 else 0
  }

  /** The policy gets as far as its markets. */
  predicate Reaches(p: Policy, endpoints: EndpointStore, symbols: SymbolStore) {
    p.enabled && 0 < p.intervalSeconds && EndpointFor(p, endpoints).Some? && MarketsFor(p, symbols) != []
  }

  /** Skips under one key: one for a policy that does not get as far as its markets, else one for each nameless market. */
  function SkipsUnder(ps: seq<Policy>, endpoints: EndpointStore, symbols: SymbolStore, key: string): nat {
    if ps == [] then 0
    else
      var p := ps[|ps| - 1];
      SkipsUnder(ps[..|ps| - 1], endpoints, symbols, key)
      + if PolicyKey(p) != key then 0 else if Reaches(p, endpoints, symbols) then Nameless(MarketsFor(p, symbols)) else 1
  }

  function JobsOf(ps: seq<Policy>, endpoints: EndpointStore, symbols: SymbolStore): int {
    if ps == [] then 0
    else
      var p := ps[|ps| - 1];
      JobsOf(ps[..|ps| - 1], endpoints, symbols)
      + if Reaches(p, endpoints, symbols) then |MarketsFor(p, symbols)| - Nameless(MarketsFor(p, symbols)) else 0
  }

  /** Why a policy is skipped, if it is. */
  function Reason(p: Policy, endpoints: EndpointStore, symbols: SymbolStore): Option<string> {
    if !(p.enabled && 1 <= p.intervalSeconds) then Some("policy disabled or interval invalid")
    else if EndpointFor(p, endpoints).None? then Some("no active endpoint for data type")
    else if MarketsFor(p, symbols) == [] then Some("no symbols in tier for exchange")
    else if Nameless(MarketsFor(p, symbols)) > 0 then Some("symbol missing source_symbol")
    else None
  }

  /** One policy either gets its markets added or is one skip. */
  lemma PolicyStep(plan: Plan, p: Policy, endpoints: EndpointStore, symbols: SymbolStore, now: nat)
    requires AddPolicy(plan, p, endpoints, symbols, now).Ok?
    ensures if Reaches(p, endpoints, symbols) then EndpointFor(p, endpoints).Some? else Reason(p, endpoints, symbols).Some?
    ensures AddPolicy(plan, p, endpoints, symbols, now).value ==
            if Reaches(p, endpoints, symbols) then AddMarkets(plan, p, MarketsFor(p, symbols), BucketFor(p, now), EndpointFor(p, endpoints).value)
            else Skip(plan, PolicyKey(p), Reason(p, endpoints, symbols).value)
    ensures Reaches(p, endpoints, symbols) ==>
            Reason(p, endpoints, symbols) == if Nameless(MarketsFor(p, symbols)) > 0 then Some("symbol missing source_symbol") else None
  {
    hide Trim, PolicyKey, AddMarkets, BucketFor, EndpointDataType, SymbolLimitForTier, Nameless, Skip;
  }

  lemma {:induction false} MarketsCount(plan: Plan, p: Policy, ms: seq<SymbolMarket>, bucket: nat, endpoint: Option<Endpoint>, key: string)
    ensures var after := AddMarkets(plan, p, ms, bucket, endpoint);
            && Skipped(after, key) == Skipped(plan, key) + (if PolicyKey(p) == key then Nameless(ms) else 0)
            && |after.jobs| == |plan.jobs| + |ms| - Nameless(ms)
  {
    hide Trim, JobFor, PolicyKey;
    if ms != [] { MarketsCount(plan, p, ms[..|ms| - 1], bucket, endpoint, key); }
  }

  lemma PolicyCounts(plan: Plan, p: Policy, endpoints: EndpointStore, symbols: SymbolStore, now: nat, key: string)
    requires AddPolicy(plan, p, endpoints, symbols, now).Ok?
    ensures var after, ms := AddPolicy(plan, p, endpoints, symbols, now).value, MarketsFor(p, symbols);
            && Skipped(after, key) == Skipped(plan, key) +
                 (if PolicyKey(p) != key then 0 else if Reaches(p, endpoints, symbols) then Nameless(ms) else 1)
            && |after.jobs| == |plan.jobs| + if Reaches(p, endpoints, symbols) then |ms| - Nameless(ms) else 0
  {
    hide PolicyKey, AddMarkets, AddPolicy, BucketFor, EndpointFor, MarketsFor, Nameless, Reaches, Reason;
    PolicyStep(plan, p, endpoints, symbols, now);
    if Reaches(p, endpoints, symbols) {
      MarketsCount(plan, p, MarketsFor(p, symbols), BucketFor(p, now), EndpointFor(p, endpoints).value, key);
    }
  }

  /**
    Nothing disappears: every market of a policy that reaches its markets becomes a job or a
    skip, and every other policy is one skip, counted under its own key.
   */
  lemma {:induction false} EverythingIsCounted(ps: seq<Policy>, endpoints: EndpointStore, symbols: SymbolStore, now: nat, key: string)
    requires PlanAll(ps, endpoints, symbols, now).Ok?
    ensures var plan := PlanAll(ps, endpoints, symbols, now).value;
            Skipped(plan, key) == SkipsUnder(ps, endpoints, symbols, key) && |plan.jobs| == JobsOf(ps, endpoints, symbols)
  {
    hide AddPolicy, Reaches, Nameless, MarketsFor, PolicyKey;
    if ps != [] {
      var init, last := ps[..|ps| - 1], ps[|ps| - 1];
      EverythingIsCounted(init, endpoints, symbols, now, key);
      PolicyCounts(PlanAll(init, endpoints, symbols, now).value, last, endpoints, symbols, now, key);
    }
  }

  lemma {:induction false} MarketsReason(plan: Plan, p: Policy, ms: seq<SymbolMarket>, bucket: nat, endpoint: Option<Endpoint>, key: string)
    ensures var after := AddMarkets(plan, p, ms, bucket, endpoint);
            if PolicyKey(p) == key && key !in plan.reasons && Nameless(ms) > 0
            then key in after.reasons && after.reasons[key] == "symbol missing source_symbol"
            else (key in after.reasons <==> key in plan.reasons) && (key in plan.reasons ==> after.reasons[key] == plan.reasons[key])
  {
    hide Trim, JobFor, PolicyKey;
    if ms != [] { MarketsReason(plan, p, ms[..|ms| - 1], bucket, endpoint, key); }
  }

  /** The first reason under a key is the one reported. */
  lemma FirstReasonStays(plan: Plan, p: Policy, endpoints: EndpointStore, symbols: SymbolStore, now: nat, key: string)
    requires AddPolicy(plan, p, endpoints, symbols, now).Ok?
    ensures var after, reason := AddPolicy(plan, p, endpoints, symbols, now).value, Reason(p, endpoints, symbols);
            if PolicyKey(p) == key && key !in plan.reasons && reason.Some?
            then key in after.reasons && after.reasons[key] == reason.value
            else (key in after.reasons <==> key in plan.reasons) && (key in plan.reasons ==> after.reasons[key] == plan.reasons[key])
  {
    hide PolicyKey, AddMarkets, AddPolicy, BucketFor, EndpointFor, MarketsFor, Nameless, Reaches, Reason;
    PolicyStep(plan, p, endpoints, symbols, now);
    if Reaches(p, endpoints, symbols) {
      MarketsReason(plan, p, MarketsFor(p, symbols), BucketFor(p, now), EndpointFor(p, endpoints).value, key);
    }
  }

  // ------------------------------------------------------------- planning twice

  function RowOf(j: Job): JobTable.NewJob {
    JobTable.NewJob(j.key, j.priority, j.scheduledAt, 0, j.maxRetry)
  }

  function RowsOf(jobs: seq<Job>): seq<JobTable.NewJob> {
    seq(|jobs|, i requires 0 <= i < |jobs| => RowOf(jobs[i]))
  }

  lemma {:induction false} SameBucketsSamePlan(ps: seq<Policy>, endpoints: EndpointStore, symbols: SymbolStore, now: nat, later: nat)
    requires forall i :: 0 <= i < |ps| ==> BucketFor(ps[i], now) == BucketFor(ps[i], later)
    ensures PlanAll(ps, endpoints, symbols, now) == PlanAll(ps, endpoints, symbols, later)
  {
    hide BucketFor, AddMarkets, Skip, EndpointDataType, PolicyKey;
    if ps != [] { SameBucketsSamePlan(ps[..|ps| - 1], endpoints, symbols, now, later); }
  }

  /** A second run in the same bucket of every policy inserts nothing, whatever the table held. */
  lemma SecondRunInsertsNothing(ps: seq<Policy>, endpoints: EndpointStore, symbols: SymbolStore, now: nat, later: nat, t: JobTable.Table)
    requires JobTable.Indexed(t)
    requires forall i :: 0 <= i < |ps| ==> BucketFor(ps[i], now) == BucketFor(ps[i], later)
    requires PlanAll(ps, endpoints, symbols, now).Ok?
    ensures var first := RowsOf(PlanAll(ps, endpoints, symbols, now).value.jobs);
            PlanAll(ps, endpoints, symbols, later).Ok? &&
            var second := RowsOf(PlanAll(ps, endpoints, symbols, later).value.jobs);
            JobTable.InsertAll(JobTable.InsertAll(t, first), second).jobs == JobTable.InsertAll(t, first).jobs
  {
    hide BucketFor, PlanAll;
    SameBucketsSamePlan(ps, endpoints, symbols, now, later);
    var rows := RowsOf(PlanAll(ps, endpoints, symbols, now).value.jobs);
    JobTable.InsertKeepsRows(t, rows);
    JobTable.ReinsertAddsNothing(JobTable.InsertAll(t, rows), rows);
  }

  // ---------------------------------------------------------------- from bucket to bucket

  /** Fields that do not disturb the key's separators. */
  predicate CleanPolicy(p: Policy) { ColonFree(Lower(Trim(p.exchange))) && ColonFree(Trim(p.dataType)) && ColonFree(Trim(p.period)) }

  predicate CleanMarkets(ms: seq<SymbolMarket>) { forall m :: m in ms ==> ColonFree(Trim(m.sourceSymbol)) }

  lemma BucketIsPast(p: Policy, now: nat)
    requires p.intervalSeconds > 0
    ensures var bucket := BucketFor(p, now); 0 <= bucket <= now < bucket + p.intervalSeconds * 1_000_000_000 && bucket % NANO == 0
  {
    var step := p.intervalSeconds * NANO;
    Modular.RoundDown(now, step);
    var bucket := now - now % step;
    assert bucket == step * (bucket / step);
    assert bucket == NANO * (p.intervalSeconds * (bucket / step));
    Modular.ModUnique(bucket, NANO, p.intervalSeconds * (bucket / step), 0);
  }

  /** One policy and market: the keys agree exactly while the bucket lasts. */
  lemma KeyChangesWithBucket(p: Policy, m: SymbolMarket, now: nat, later: nat, e: Option<Endpoint>)
    requires p.intervalSeconds > 0 && CleanPolicy(p) && ColonFree(Trim(m.sourceSymbol))
    ensures JobFor(p, m, BucketFor(p, now), e).key == JobFor(p, m, BucketFor(p, later), e).key <==> BucketFor(p, now) == BucketFor(p, later)
  {
    hide IdempotencyKey, BucketFor, Lower, Trim, ColonFree;
    BucketIsPast(p, now);
    BucketIsPast(p, later);
    var a, b := BucketFor(p, now), BucketFor(p, later);
    if JobFor(p, m, a, e).key == JobFor(p, m, b, e).key {
      KeyInjective(p.exchange, p.dataType, m.symbolId, m.sourceSymbol, p.period, a, p.exchange, p.dataType, m.symbolId, m.sourceSymbol, p.period, b);
      assert a == NANO * (a / NANO) && b == NANO * (b / NANO);
    }
  }

  /** A job for a bucket that starts after an earlier run has a key that the run did not plan. */
  lemma NewBucketNewKey(ps: seq<Policy>, endpoints: EndpointStore, symbols: SymbolStore, now: nat, i: nat, m: SymbolMarket, later: nat, k: Job, j: Job)
    requires PlanAll(ps, endpoints, symbols, now).Ok? && i < |ps| && now < BucketFor(ps[i], later)
    requires forall n :: 0 <= n < |ps| ==> CleanPolicy(ps[n]) && CleanMarkets(MarketsFor(ps[n], symbols))
    requires k in PlanAll(ps, endpoints, symbols, now).value.jobs && Asks(ps[i], m, endpoints, symbols, later, j)
    ensures k.key != j.key
  {
    hide PlanAll, IdempotencyKey, BucketFor, Lower, Trim, ColonFree, MarketsFor, EndpointFor;
    PlanIsExact(ps, endpoints, symbols, now, k);
    var n, m' :| 0 <= n < |ps| && Asks(ps[n], m', endpoints, symbols, now, k);
    var p, q := ps[n], ps[i];
    BucketIsPast(p, now);
    BucketIsPast(q, later);
    var a, b := BucketFor(p, now), BucketFor(q, later);
    if k.key == j.key {
      KeyInjective(p.exchange, p.dataType, m'.symbolId, m'.sourceSymbol, p.period, a, q.exchange, q.dataType, m.symbolId, m.sourceSymbol, q.period, b);
    }
  }

  /** So a run in a later bucket stores a row for each of its jobs, unless the table had one of that key before. */
  lemma NextBucketIsStored(ps: seq<Policy>, endpoints: EndpointStore, symbols: SymbolStore, now: nat, i: nat, m: SymbolMarket, later: nat, j: Job, t: JobTable.Table)
    requires JobTable.Indexed(t) && !JobTable.KeyTaken(t, j.key)
    requires PlanAll(ps, endpoints, symbols, now).Ok? && PlanAll(ps, endpoints, symbols, later).Ok? && i < |ps| && now < BucketFor(ps[i], later)
    requires forall n :: 0 <= n < |ps| ==> CleanPolicy(ps[n]) && CleanMarkets(MarketsFor(ps[n], symbols))
    requires Asks(ps[i], m, endpoints, symbols, later, j)
    ensures var first := JobTable.InsertAll(t, RowsOf(PlanAll(ps, endpoints, symbols, now).value.jobs));
            var second := JobTable.InsertAll(first, RowsOf(PlanAll(ps, endpoints, symbols, later).value.jobs));
            !JobTable.KeyTaken(first, j.key) && JobTable.KeyTaken(second, j.key)
  {
    hide PlanAll, Asks, JobTable.InsertAll, JobTable.KeyTaken, BucketFor, CleanPolicy, CleanMarkets;
    var now', later' := PlanAll(ps, endpoints, symbols, now).value.jobs, PlanAll(ps, endpoints, symbols, later).value.jobs;
    forall n | 0 <= n < |now'| ensures RowsOf(now')[n].key != j.key {
      NewBucketNewKey(ps, endpoints, symbols, now, i, m, later, now'[n], j);
    }
    JobTable.InsertKeepsRows(t, RowsOf(now'));
    PlanIsExact(ps, endpoints, symbols, later, j);
    var n :| 0 <= n < |later'| && later'[n] == j;
    assert RowsOf(later')[n].key == j.key;
    JobTable.InsertKeepsRows(JobTable.InsertAll(t, RowsOf(now')), RowsOf(later'));
  }

  // ---------------------------------------------------------------- clashing policies

  /** ListActivePolicies orders by priority. */
  predicate ByPriority(ps: seq<Policy>) {
    forall i, j :: 0 <= i < j < |ps| ==> ps[i].priority <= ps[j].priority
  }

  ghost predicate JobsByPriority(jobs: seq<Job>, bound: int) {
    && (forall i, j :: 0 <= i < j < |jobs| ==> jobs[i].priority <= jobs[j].priority)
    && (forall i :: 0 <= i < |jobs| ==> jobs[i].priority <= bound)
  }

  lemma {:induction false} MarketsKeepOrder(plan: Plan, p: Policy, ms: seq<SymbolMarket>, bucket: nat, endpoint: Option<Endpoint>)
    requires JobsByPriority(plan.jobs, p.priority)
    ensures JobsByPriority(AddMarkets(plan, p, ms, bucket, endpoint).jobs, p.priority)
  {
    hide IdempotencyKey, Trim, PolicyKey;
    if ms != [] { MarketsKeepOrder(plan, p, ms[..|ms| - 1], bucket, endpoint); }
  }

  lemma SymbolsKeepOrder(plan: Plan, p: Policy, symbols: SymbolStore, now: nat, endpoint: Option<Endpoint>)
    requires JobsByPriority(plan.jobs, p.priority) && AddSymbols(plan, p, symbols, now, endpoint).Ok?
    ensures JobsByPriority(AddSymbols(plan, p, symbols, now, endpoint).value.jobs, p.priority)
  {
    hide AddMarkets, JobsByPriority, PolicyKey;
    MarketsKeepOrder(plan, p, symbols(p.tier, p.exchange, SymbolLimitForTier(p.tier)).value, BucketFor(p, now), endpoint);
  }

  lemma PolicyKeepsOrder(plan: Plan, p: Policy, endpoints: EndpointStore, symbols: SymbolStore, now: nat)
    requires JobsByPriority(plan.jobs, p.priority) && AddPolicy(plan, p, endpoints, symbols, now).Ok?
    ensures JobsByPriority(AddPolicy(plan, p, endpoints, symbols, now).value.jobs, p.priority)
  {
    hide AddSymbols, JobsByPriority, EndpointDataType, PolicyKey;
    var (endpointType, required) := EndpointDataType(p.dataType);
    if p.enabled && 0 < p.intervalSeconds && !required {
      SymbolsKeepOrder(plan, p, symbols, now, None);
    } else if p.enabled && 0 < p.intervalSeconds && endpoints(p.exchange, endpointType).value != [] {
      SymbolsKeepOrder(plan, p, symbols, now, Some(endpoints(p.exchange, endpointType).value[0]));
    }
  }

  lemma {:induction false} PlanKeepsOrder(ps: seq<Policy>, endpoints: EndpointStore, symbols: SymbolStore, now: nat)
    requires ByPriority(ps) && PlanAll(ps, endpoints, symbols, now).Ok? && ps != []
    ensures JobsByPriority(PlanAll(ps, endpoints, symbols, now).value.jobs, ps[|ps| - 1].priority)
  {
    hide AddPolicy;
    var init, p := ps[..|ps| - 1], ps[|ps| - 1];
    var plan := PlanAll(init, endpoints, symbols, now).value;
    if init != [] { PlanKeepsOrder(init, endpoints, symbols, now); }
    assert JobsByPriority(plan.jobs, p.priority);
    PolicyKeepsOrder(plan, p, endpoints, symbols, now);
  }

  /** Job n is a best (lowest) priority job among those under the key. */
  ghost predicate Best(jobs: seq<Job>, n: nat, key: string) {
    && n < |jobs| && jobs[n].key == key
    && forall m :: 0 <= m < |jobs| && jobs[m].key == key ==> jobs[n].priority <= jobs[m].priority
  }

  /**
    When several policies yield one key, the row stored is the planned job of the best
    priority among them.
   */
  lemma BestPriorityIsStored(ps: seq<Policy>, endpoints: EndpointStore, symbols: SymbolStore, now: nat, t: JobTable.Table, plan: Plan, k: nat)
    requires ByPriority(ps) && PlanAll(ps, endpoints, symbols, now) == Ok(plan)
    requires k < |plan.jobs| && JobTable.Indexed(t) && !JobTable.KeyTaken(t, plan.jobs[k].key)
    ensures var t' := JobTable.InsertAll(t, RowsOf(plan.jobs));
            exists id, n: nat :: id in t'.jobs && Best(plan.jobs, n, plan.jobs[k].key) && t'.jobs[id] == JobTable.FreshRow(RowOf(plan.jobs[n]))
  {
    hide PlanAll, JobTable.InsertAll, JobTable.KeyTaken;
    var jobs, key := plan.jobs, plan.jobs[k].key;
    PlanOrder(ps, endpoints, symbols, now);
    var n := FirstIndex(jobs, key, k);
    assert Best(jobs, n, key) by {
      assert forall m :: 0 <= m < |jobs| && jobs[m].key == key ==> n <= m;
    }
    JobTable.EarlierJobWins(t, RowsOf(jobs), n, key);
  }

  lemma {:induction false} MarketsExtend(plan: Plan, p: Policy, ms: seq<SymbolMarket>, bucket: nat, endpoint: Option<Endpoint>)
    ensures plan.jobs <= AddMarkets(plan, p, ms, bucket, endpoint).jobs
  {
    hide Trim, JobFor, PolicyKey;
    if ms != [] { MarketsExtend(plan, p, ms[..|ms| - 1], bucket, endpoint); }
  }

  lemma PolicyExtends(plan: Plan, p: Policy, endpoints: EndpointStore, symbols: SymbolStore, now: nat)
    requires AddPolicy(plan, p, endpoints, symbols, now).Ok?
    ensures plan.jobs <= AddPolicy(plan, p, endpoints, symbols, now).value.jobs
  {
    hide AddMarkets, PolicyKey, EndpointDataType, BucketFor, SymbolLimitForTier;
    var (endpointType, required) := EndpointDataType(p.dataType);
    var ms := MarketsFor(p, symbols);
    if !required {
      MarketsExtend(plan, p, ms, BucketFor(p, now), None);
    } else if endpoints(p.exchange, endpointType).Ok? && endpoints(p.exchange, endpointType).value != [] {
      MarketsExtend(plan, p, ms, BucketFor(p, now), Some(endpoints(p.exchange, endpointType).value[0]));
    }
  }

  /** The jobs of the first policies come first. */
  lemma {:induction false} PlanGrows(ps: seq<Policy>, n: nat, endpoints: EndpointStore, symbols: SymbolStore, now: nat)
    requires n <= |ps| && PlanAll(ps, endpoints, symbols, now).Ok?
    ensures PlanAll(ps[..n], endpoints, symbols, now).Ok?
    ensures PlanAll(ps[..n], endpoints, symbols, now).value.jobs <= PlanAll(ps, endpoints, symbols, now).value.jobs
  {
    hide AddPolicy;
    if n == |ps| {
      assert ps[..n] == ps;
    } else {
      var init := ps[..|ps| - 1];
      assert init[..n] == ps[..n];
      PlanGrows(init, n, endpoints, symbols, now);
      PolicyExtends(PlanAll(init, endpoints, symbols, now).value, ps[|ps| - 1], endpoints, symbols, now);
    }
  }

  /** Some policy before the i-th asks for a job under the key. */
  ghost predicate AskedBefore(ps: seq<Policy>, i: nat, endpoints: EndpointStore, symbols: SymbolStore, now: nat, key: string) {
    exists e, m, j :: 0 <= e < i && e < |ps| && Asks(ps[e], m, endpoints, symbols, now, j) && j.key == key
  }

  /** Whatever the order of the policies, the row stored under a key is a job of the first policy that asks for it. */
  lemma EarliestPolicyIsStored(ps: seq<Policy>, endpoints: EndpointStore, symbols: SymbolStore, now: nat, t: JobTable.Table, plan: Plan,
                               i: nat, m: SymbolMarket, j: Job)
    requires PlanAll(ps, endpoints, symbols, now) == Ok(plan) && JobTable.Indexed(t) && !JobTable.KeyTaken(t, j.key)
    requires i < |ps| && Asks(ps[i], m, endpoints, symbols, now, j) && !AskedBefore(ps, i, endpoints, symbols, now, j.key)
    ensures var t' := JobTable.InsertAll(t, RowsOf(plan.jobs));
            exists id, m', j' :: id in t'.jobs && t'.jobs[id] == JobTable.FreshRow(RowOf(j'))
              && Asks(ps[i], m', endpoints, symbols, now, j') && j'.key == j.key
  {
    hide PlanAll, Asks, JobTable.InsertAll, JobTable.KeyTaken;
    var jobs, upTo := plan.jobs, ps[..i + 1];
    PlanGrows(ps, i + 1, endpoints, symbols, now);
    var some := PlanAll(upTo, endpoints, symbols, now).value.jobs;
    PlanIsExact(upTo, endpoints, symbols, now, j);
    assert upTo[i] == ps[i];
    var k :| 0 <= k < |some| && some[k] == j;
    var n := FirstIndex(jobs, j.key, k);
    var first := jobs[n];
    assert first == some[n];
    PlanIsExact(upTo, endpoints, symbols, now, first);
    var e, m' :| 0 <= e < |upTo| && Asks(upTo[e], m', endpoints, symbols, now, first);
    assert upTo[e] == ps[e];
    assert e == i;
    JobTable.EarlierJobWins(t, RowsOf(jobs), n, j.key);
  }

  lemma PlanOrder(ps: seq<Policy>, endpoints: EndpointStore, symbols: SymbolStore, now: nat)
    requires ByPriority(ps) && PlanAll(ps, endpoints, symbols, now).Ok?
    ensures var jobs := PlanAll(ps, endpoints, symbols, now).value.jobs;
            forall i, j :: 0 <= i < j < |jobs| ==> jobs[i].priority <= jobs[j].priority
  {
    hide AddPolicy;
    if ps != [] { PlanKeepsOrder(ps, endpoints, symbols, now); }
  }

  lemma {:induction false} FirstIndex(jobs: seq<Job>, key: string, k: nat) returns (n: nat)
    requires k < |jobs| && jobs[k].key == key
    ensures n <= k && jobs[n].key == key && forall m :: 0 <= m < n ==> jobs[m].key != key
    decreases k
  {
    if m :| 0 <= m < k && jobs[m].key == key {
      n := FirstIndex(jobs, key, m);
    } else {
      n := k;
    }
  }
}
