/**
  Retention policies: the table of safety minimums, validation, and planning
  (internal/retention/specs.go and planner.go).
 */
module RetentionPolicy {
  import opened Wrappers
  import opened Text
  import opened Calendar

  datatype Policy = Policy(
    id: int,
    tableName: string,
    timeColumn: string,
    intervalColumn: string,
    intervalValue: string,
    retentionDays: int,
    chunkSize: int,
    enabled: bool,
    dryRun: bool,
    rollupBeforeDelete: bool,
    maxRowsPerRun: int,
    timeoutSeconds: int,
    partitionStrategy: string,
    minRetentionDays: int)

  datatype TableSpec = TableSpec(
    timeColumns: set<string>,
    intervalColumns: set<string>,
    minRetentionDays: int,
    partitionPreferred: bool)

  datatype PlanItem = PlanItem(policy: Policy, cutoff: int, dryRun: bool, usePartitionDrop: bool)

  /** tableSpecs. */
  function SpecOf(table: string): Option<TableSpec> {
    match table
    case "derivative_klines" => Some(TableSpec({"open_time"}, {"interval"}, 7, true))
    case "derivative_market_snapshots" => Some(TableSpec({"snapshot_time"}, {}, 7, true))
    case "open_interest_snapshots" => Some(TableSpec({"snapshot_time"}, {}, 14, true))
    case "funding_rate_snapshots" => Some(TableSpec({"snapshot_time"}, {}, 30, false))
    case "funding_rate_history" => Some(TableSpec({"funding_time"}, {}, 365, false))
    case "long_short_ratio_snapshots" => Some(TableSpec({"snapshot_time"}, {}, 90, false))
    case "taker_flow_snapshots" => Some(TableSpec({"snapshot_time"}, {}, 30, true))
    case "cvd_snapshots" => Some(TableSpec({"snapshot_time"}, {}, 30, true))
    case "derivative_aggregated_snapshots" => Some(TableSpec({"snapshot_time"}, {}, 14, true))
    case "liquidation_events" => Some(TableSpec({"event_time"}, {}, 7, true))
    case "liquidation_aggregates" => Some(TableSpec({"bucket_time"}, {"period"}, 30, false))
    case "orderbook_imbalance_snapshots" => Some(TableSpec({"snapshot_time"}, {}, 7, true))
    case "orderbook_depth_snapshots" => Some(TableSpec({"snapshot_time"}, {}, 1, false))
    case "exchange_request_logs" => Some(TableSpec({"captured_at"}, {}, 7, false))
    case "raw_exchange_payloads" => Some(TableSpec({"captured_at", "retention_expires_at"}, {}, 1, false))
    case "failed_collection_jobs" => Some(TableSpec({"failed_at"}, {}, 30, false))
    case "data_collection_runs" => Some(TableSpec({"started_at"}, {}, 30, false))
    case "data_quality_issues" => Some(TableSpec({"last_seen_at"}, {}, 90, false))
    case _ => None
  }

  /** ValidatePolicy: the checks in source order. */
  function ValidatePolicy(p: Policy): Result<TableSpec, string> {
    var spec := SpecOf(Lower(Trim(p.tableName)));
    if spec.None? then Err("table is not supported")
    else if p.timeColumn !in spec.value.timeColumns then Err("time column")
    else if p.intervalColumn != "" && p.intervalColumn !in spec.value.intervalColumns then Err("interval column")
    else if p.intervalColumn != "" && Trim(p.intervalValue) == "" then Err("interval value is required")
    else if p.retentionDays <= 0 then Err("retention_days must be greater than 0")
    else if p.retentionDays < SafetyDays(p, spec.value) then Err("retention_days is below safety minimum")
    else if p.chunkSize <= 0 then Err("chunk_size must be greater than 0")
    else if p.maxRowsPerRun <= 0 then Err("max_rows_per_run must be greater than 0")
    else if p.timeoutSeconds <= 0 then Err("timeout_seconds must be greater than 0")
    else Ok(spec.value)
  }

  /** The larger of the table's and the policy's own minimum. */
  function SafetyDays(p: Policy, spec: TableSpec): int {
    if p.minRetentionDays > spec.minRetentionDays then p.minRetentionDays else spec.minRetentionDays
  }

  predicate ShouldUsePartitionDrop(p: Policy, spec: TableSpec) {
    if p.partitionStrategy == "drop" then true
    else if p.partitionStrategy == "delete" then false
    else spec.partitionPreferred
  }

  function ItemFor(p: Policy, spec: TableSpec, now: int): PlanItem {
    PlanItem(p, now - p.retentionDays * DAY, p.dryRun, ShouldUsePartitionDrop(p, spec))
  }

  /** What Plan yields for policies in their run order: one item per enabled policy, or the first error. */
  function Planned(policies: seq<Policy>, now: int): Result<seq<PlanItem>, string> {
    if policies == [] then Ok([])
    else
      match Planned(policies[..|policies| - 1], now)
      case Err(e) => Err(e)
      case Ok(items) =>
        var p := policies[|policies| - 1];
        if !p.enabled then Ok(items)
        else
          match ValidatePolicy(p)
          case Err(e) => Err(e)
          case Ok(spec) => Ok(items + [ItemFor(p, spec, now)])
  }

  /** The loop of Plan, on policies already in run order. */
  method Plan(policies: seq<Policy>, now: int) returns (r: Result<seq<PlanItem>, string>)
    ensures r == Planned(policies, now)
  {
    hide ValidatePolicy, ItemFor;
    var items: seq<PlanItem> := [];
    var i := 0;
    while i < |policies|
      invariant 0 <= i <= |policies|
      invariant Planned(policies[..i], now) == Ok(items)
    {
      assert policies[..i + 1][..i] == policies[..i];
      var p := policies[i];
      if p.enabled {
        match ValidatePolicy(p) {
          case Err(e) =>
            ErrorsStay(policies, i + 1, now);
            return Err(e);
          case Ok(spec) => items := items + [ItemFor(p, spec, now)];
        }
      }
      i := i + 1;
    }
    assert policies[..i] == policies;
    return Ok(items);
  }

  lemma {:induction false} ErrorsStay(policies: seq<Policy>, n: nat, now: int)
    requires n <= |policies| && Planned(policies[..n], now).Err?
    ensures Planned(policies, now) == Planned(policies[..n], now)
  {
    hide ValidatePolicy, ItemFor;
    if n == |policies| {
      assert policies[..n] == policies;
    } else {
      assert policies[..|policies| - 1][..n] == policies[..n];
      ErrorsStay(policies[..|policies| - 1], n, now);
    }
  }

  /** Every planned cutoff is at least both safety minimums in the past, and its policy is valid. */
  lemma {:induction false} PlannedCutoffsAreSafe(policies: seq<Policy>, now: int, item: PlanItem)
    requires Planned(policies, now).Ok? && item in Planned(policies, now).value
    ensures item.policy in policies && item.policy.enabled && item.dryRun == item.policy.dryRun
    ensures ValidatePolicy(item.policy).Ok?
    ensures var spec := ValidatePolicy(item.policy).value;
            && item.cutoff <= now - spec.minRetentionDays * DAY
            && item.cutoff <= now - item.policy.minRetentionDays * DAY
            && (item.usePartitionDrop <==>
                  item.policy.partitionStrategy == "drop" || (item.policy.partitionStrategy != "delete" && spec.partitionPreferred))
  {
    hide SpecOf;
    var init, p := policies[..|policies| - 1], policies[|policies| - 1];
    var before := Planned(init, now).value;
    if item in before {
      PlannedCutoffsAreSafe(init, now, item);
    } else {
      assert item == ItemFor(p, ValidatePolicy(p).value, now);
    }
  }

  /** What makes a policy acceptable. */
  lemma ValidateIff(p: Policy)
    ensures ValidatePolicy(p).Ok? <==>
            && SpecOf(Lower(Trim(p.tableName))).Some?
            && var spec := SpecOf(Lower(Trim(p.tableName))).value;
               && p.timeColumn in spec.timeColumns
               && (p.intervalColumn == "" || (p.intervalColumn in spec.intervalColumns && Trim(p.intervalValue) != ""))
               && 1 <= p.retentionDays && spec.minRetentionDays <= p.retentionDays && p.minRetentionDays <= p.retentionDays
               && 1 <= p.chunkSize && 1 <= p.maxRowsPerRun && 1 <= p.timeoutSeconds
  {
    hide SpecOf, Lower, Trim;
  }

  /** The tables by the days that their rows are kept at least. */
  const KEPT: seq<(int, set<string>)> := [
    (365, {"funding_rate_history"}),
    (90, {"long_short_ratio_snapshots", "data_quality_issues"}),
    (30, {"funding_rate_snapshots", "taker_flow_snapshots", "cvd_snapshots", "liquidation_aggregates", "failed_collection_jobs",
          "data_collection_runs"}),
    (14, {"open_interest_snapshots", "derivative_aggregated_snapshots"}),
    (7, {"derivative_klines", "derivative_market_snapshots", "liquidation_events", "orderbook_imbalance_snapshots", "exchange_request_logs"}),
    (1, {"orderbook_depth_snapshots", "raw_exchange_payloads"})]

  lemma MinimumDays(table: string)
    ensures SpecOf(table).Some? <==> exists g :: 0 <= g < |KEPT| && table in KEPT[g].1
    ensures forall g :: 0 <= g < |KEPT| && table in KEPT[g].1 ==> SpecOf(table).value.minRetentionDays == KEPT[g].0
  {
    var days := if SpecOf(table).Some? then SpecOf(table).value.minRetentionDays else 0;
    var g := if days == 365 then 0 else if days == 90 then 1 else if days == 30 then 2 else if days == 14 then 3 else if days == 7 then 4 else 5;
    assert SpecOf(table).Some? ==> table in KEPT[g].1;
  }

  /** The tables by the column that dates their rows. */
  const DATED: seq<(string, set<string>)> := [
    ("snapshot_time", {"derivative_market_snapshots", "open_interest_snapshots", "funding_rate_snapshots", "long_short_ratio_snapshots",
                       "taker_flow_snapshots", "cvd_snapshots", "derivative_aggregated_snapshots", "orderbook_imbalance_snapshots",
                       "orderbook_depth_snapshots"}),
    ("open_time", {"derivative_klines"}),
    ("funding_time", {"funding_rate_history"}),
    ("event_time", {"liquidation_events"}),
    ("bucket_time", {"liquidation_aggregates"}),
    ("captured_at", {"exchange_request_logs", "raw_exchange_payloads"}),
    ("retention_expires_at", {"raw_exchange_payloads"}),
    ("failed_at", {"failed_collection_jobs"}),
    ("started_at", {"data_collection_runs"}),
    ("last_seen_at", {"data_quality_issues"})]

  /** The big tables, whose partitions are dropped unless the policy says otherwise. */
  const PARTITIONED: set<string> := {
    "derivative_klines", "derivative_market_snapshots", "open_interest_snapshots", "taker_flow_snapshots", "cvd_snapshots",
    "derivative_aggregated_snapshots", "liquidation_events", "orderbook_imbalance_snapshots"}

  lemma TableColumns(table: string, i: nat)
    requires SpecOf(table).Some? && i < |DATED|
    ensures DATED[i].0 in SpecOf(table).value.timeColumns <==> table in DATED[i].1
  {
  }

  /** Only two tables hold rows of several intervals. */
  lemma IntervalTables(table: string)
    requires SpecOf(table).Some?
    ensures SpecOf(table).value.intervalColumns ==
            if table == "derivative_klines" then {"interval"} else if table == "liquidation_aggregates" then {"period"} else {}
  {
  }

  lemma PartitionedTables(table: string)
    requires SpecOf(table).Some?
    ensures SpecOf(table).value.partitionPreferred <==> table in PARTITIONED
  {
  }

  /** No accepted policy reaches rows that are younger than that, in microseconds. */
  lemma HistoryIsKept(policies: seq<Policy>, now: int, item: PlanItem, g: nat)
    requires Planned(policies, now).Ok? && item in Planned(policies, now).value
    requires g < |KEPT| && Lower(Trim(item.policy.tableName)) in KEPT[g].1
    ensures item.cutoff <= now - KEPT[g].0 * 24 * 60 * 60 * 1_000_000
  {
    hide SpecOf, Planned, Lower, Trim;
    PlannedCutoffsAreSafe(policies, now, item);
    MinimumDays(Lower(Trim(item.policy.tableName)));
  }
}
