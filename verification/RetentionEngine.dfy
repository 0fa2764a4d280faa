/**
  One retention run over derivative_klines (internal/retention/engine.go, store.go,
  sql.go): count, roll up, then drop partitions or delete in chunks, oldest first.
 */
module RetentionEngine {
  import opened Wrappers
  import opened Numbers
  import opened Rollup
  import opened RetentionPolicy
  import Calendar
  import Partitions

  datatype Options = Options(maxRowsPerRun: int, diskPressureCritical: bool)

  datatype Cleanup = Cleanup(
    rowsMatched: nat,
    rowsDeleted: nat,
    partitionsMatched: nat,
    partitionsDropped: nat,
    rollupRead: nat,
    rollupWritten: nat)

  /** retentionWhereSQL: the rows a delete chunk may remove. */
  function Deletable(t: Table, p: Policy, cutoff: int): set<Key> {
    set k | k in t && k.openTime < cutoff && (p.intervalColumn == "" || k.interval == p.intervalValue)
  }

  function EffectiveMaxRows(p: Policy, optionMax: int): int {
    var maxRows := if optionMax > 0 && optionMax < p.maxRowsPerRun then optionMax else p.maxRowsPerRun;
    if maxRows <= 0 then p.chunkSize else maxRows
  }

  /** The option can only lower the policy's own cap. */
  lemma OptionLowersCap(p: Policy, optionMax: int)
    requires 1 <= p.maxRowsPerRun
    ensures var cap := EffectiveMaxRows(p, optionMax);
            && 1 <= cap <= p.maxRowsPerRun && (1 <= optionMax ==> cap <= optionMax)
            && (cap == p.maxRowsPerRun || cap == optionMax)
  {
  }

  /** No row of `gone` is newer than a row of `rows` that stays. */
  ghost predicate OldestFirst(rows: set<Key>, gone: set<Key>) {
    && gone <= rows
    && forall d, k :: d in gone && k in rows && k !in gone ==> d.openTime <= k.openTime
  }

  /** What ORDER BY time LIMIT n picks of `rows`, ties broken arbitrarily. */
  ghost predicate Oldest(rows: set<Key>, gone: set<Key>, n: int) {
    OldestFirst(rows, gone) && |gone| == Min(n, |rows|)
  }

  /** Two chunks in a row are one bigger chunk. */
  lemma OldestChains(rows: set<Key>, a: set<Key>, b: set<Key>)
    requires OldestFirst(rows, a) && OldestFirst(rows - a, b)
    ensures OldestFirst(rows, a + b) && a !! b
    ensures |rows - a| == |rows| - |a| && |a + b| == |a| + |b|
  {
  }

  /** One more chunk of at most `n` rows, within the cap; a short chunk means that no rows are left. */
  lemma ChunkStep(rows: set<Key>, gone: set<Key>, more: set<Key>, n: nat, cap: nat)
    requires OldestFirst(rows, gone) && Oldest(rows - gone, more, n) && |gone| + n <= cap && |gone| <= |rows|
    ensures OldestFirst(rows, gone + more) && |gone + more| == |gone| + |more| <= Min(cap, |rows|)
    ensures |more| < n ==> Oldest(rows, gone + more, cap)
    ensures |gone| + |more| == cap ==> Oldest(rows, gone + more, cap)
  {
    hide OldestFirst;
    OldestChains(rows, gone, more);
  }

  lemma DeletableWithout(t: Table, gone: set<Key>, p: Policy, cutoff: int)
    ensures Deletable(t - gone, p, cutoff) == Deletable(t, p, cutoff) - gone
  {
  }

  lemma NothingGone(rows: set<Key>, cap: nat)
    ensures OldestFirst(rows, {}) && (cap == 0 ==> Oldest(rows, {}, cap))
  {
  }

  /** The rows an SQL `ORDER BY time ASC LIMIT n` picks. */
  method PickOldest(rows: set<Key>, n: nat) returns (gone: set<Key>)
    ensures Oldest(rows, gone, n)
  {
    gone := {};
    var rest := rows;
    while rest != {} && |gone| < n
      invariant rest <= rows && gone == rows - rest && |gone| <= n
      invariant forall d, k :: d in gone && k in rest ==> d.openTime <= k.openTime
    {
      var k := EarliestRow(rest);
      gone := gone + {k};
      rest := rest - {k};
    }
    assert rows == gone + rest;
  }

  method EarliestRow(rows: set<Key>) returns (first: Key)
    requires rows != {}
    ensures first in rows && forall k :: k in rows ==> first.openTime <= k.openTime
  {
    first :| first in rows;
    var rest := rows - {first};
    while rest != {}
      invariant first in rows && rest <= rows
      invariant forall k :: k in rows && k !in rest ==> first.openTime <= k.openTime
      decreases rest
    {
      var k :| k in rest;
      if k.openTime < first.openTime {
        first := k;
      }
      rest := rest - {k};
    }
  }

  // -------------------------------------------------------------- grouping, as a loop

  datatype Group = Group(market: Market, agg: Agg)

  /**
    The `grouped` query as one pass over the eligible rows, in any order.  Fails, as the
    INSERT does, when a target candle mixes markets.
   */
  method GroupRows(t: Table, source: set<Key>, target: string, size: int) returns (r: Option<Table>)
    requires size > 0 && source <= t.Keys
    ensures r.None? <==> Clash(t, source, size)
    ensures r.Some? ==> r.value == NewRows(t, source, target, size)
  {
    hide Bucket, Fold, Merge, Targets, Members, Clash, NewRows, GroupInv;
    var groups: map<Key, Group> := map[];
    NoTargets(target, size);
    var pending := source;
    ghost var done: set<Key> := {};
    while pending != {}
      invariant pending <= source && done == source - pending
      invariant groups.Keys == Targets(done, target, size)
      invariant forall tk :: tk in groups ==> GroupInv(t, Members(done, target, size, tk), groups[tk])
      decreases pending
    {
      var k :| k in pending;
      var tk := TargetKey(k, target, size);
      ghost var before := done;
      pending, done := pending - {k}, done + {k};
      OneMoreMember(before, k, target, size);
      if tk in groups {
        ghost var others := Members(before, target, size, tk);
        GroupFacts(t, before, target, size, tk, groups[tk]);
        if groups[tk].market != t[k].market {
          MixedGroupClashes(t, source, target, size, k, others);
          return None;
        }
        AddToGroup(t, others, groups[tk], k);
        groups := groups[tk := groups[tk].(agg := Merge(Unit(k, t[k]), groups[tk].agg))];
      } else {
        NoMembers(before, target, size, tk);
        NewGroup(t, k);
        assert Members(done, target, size, tk) == {k};
        groups := groups[tk := Group(t[k].market, Unit(k, t[k]))];
      }
    }
    assert done == source;
    GroupsAreUniform(t, source, target, size, groups);
    return Some(map tk | tk in groups :: RowOf(groups[tk]));
  }

  lemma NoTargets(target: string, size: int)
    requires size > 0
    ensures Targets({}, target, size) == {}
  {
  }

  lemma OneMoreMember(source: set<Key>, k: Key, target: string, size: int)
    requires size > 0
    ensures var tk, more := TargetKey(k, target, size), source + {k};
            && Targets(more, target, size) == Targets(source, target, size) + {tk}
            && Members(more, target, size, tk) == Members(source, target, size, tk) + {k}
            && (forall other :: other != tk ==> Members(more, target, size, other) == Members(source, target, size, other))
  {
    hide Bucket;
  }

  /** A group holds members only, all of one market. */
  lemma GroupFacts(t: Table, source: set<Key>, target: string, size: int, tk: Key, g: Group)
    requires size > 0 && GroupInv(t, Members(source, target, size, tk), g)
    ensures var others := Members(source, target, size, tk);
            && others != {} && others <= source
            && (forall j :: j in others ==> j in t && t[j].market == g.market && TargetKey(j, target, size) == tk)
  {
    hide Bucket, Fold;
  }

  lemma NewGroup(t: Table, k: Key)
    requires k in t
    ensures GroupInv(t, {k}, Group(t[k].market, Unit(k, t[k])))
  {
    FoldOne(t, k);
  }

  function RowOf(g: Group): Candle {
    Candle(g.market, g.agg.closeTime, g.agg.first.price, g.agg.high, g.agg.low, g.agg.last.price, g.agg.sums, true)
  }

  ghost predicate GroupInv(t: Table, members: set<Key>, g: Group) {
    members != {} && members <= t.Keys && g.agg == Fold(t, members) && forall k :: k in members ==> t[k].market == g.market
  }

  lemma AddToGroup(t: Table, members: set<Key>, g: Group, k: Key)
    requires GroupInv(t, members, g) && k in t && k !in members && t[k].market == g.market
    ensures GroupInv(t, members + {k}, g.(agg := Merge(Unit(k, t[k]), g.agg)))
  {
    hide Fold, Merge;
    FoldPick(t, members + {k}, k);
    assert members + {k} - {k} == members;
  }

  lemma NoMembers(source: set<Key>, target: string, size: int, tk: Key)
    requires size > 0 && tk !in Targets(source, target, size)
    ensures Members(source, target, size, tk) == {}
  {
  }

  lemma MixedGroupClashes(t: Table, source: set<Key>, target: string, size: int, k: Key, others: set<Key>)
    requires size > 0 && source <= t.Keys && k in source && others != {} && others <= source
    requires forall j :: j in others ==> TargetKey(j, target, size) == TargetKey(k, target, size) && t[j].market != t[k].market
    ensures Clash(t, source, size)
  {
  }

  lemma GroupsAreUniform(t: Table, source: set<Key>, target: string, size: int, groups: map<Key, Group>)
    requires size > 0 && source <= t.Keys && groups.Keys == Targets(source, target, size)
    requires forall tk :: tk in groups ==> GroupInv(t, Members(source, target, size, tk), groups[tk])
    ensures !Clash(t, source, size)
    ensures (map tk | tk in groups :: RowOf(groups[tk])) == NewRows(t, source, target, size)
  {
    hide Bucket, Fold;
    forall j, k | j in source && k in source && TargetKey(j, "", size) == TargetKey(k, "", size)
      ensures t[j].market == t[k].market
    {
      var tk := TargetKey(j, target, size);
      assert GroupInv(t, Members(source, target, size, tk), groups[tk]);
      assert j in Members(source, target, size, tk) && k in Members(source, target, size, tk);
    }
  }

  // --------------------------------------------------------------------- the engine

  /** The kline table after the rollup step of a run. */
  ghost function AfterRollup(t: Table, p: Policy, cutoff: int): Option<Table> {
    if !p.rollupBeforeDelete then Some(t)
    else if p.tableName != "derivative_klines" || SpecFor(p.intervalValue).None? then None
    else RolledUp(t, p.intervalValue, SpecFor(p.intervalValue).value, cutoff)
  }

  /** The rollup step of a run goes through; a dry run does not get as far as the INSERT. */
  ghost predicate RollupRuns(t: Table, p: Policy, cutoff: int, dryRun: bool) {
    && p.tableName == "derivative_klines" && SpecFor(p.intervalValue).Some?
    && (dryRun || RolledUp(t, p.intervalValue, SpecFor(p.intervalValue).value, cutoff).Some?)
  }

  function DropsOf(item: PlanItem, names: seq<string>): seq<Partitions.Partition> {
    if item.usePartitionDrop then Partitions.DroppableOf(item.policy.tableName, names, item.cutoff) else []
  }

  class Engine {
    var rows: Table
    var partitions: seq<string>

    constructor (rows: Table, partitions: seq<string>)
      ensures this.rows == rows && this.partitions == partitions
    {
      this.rows := rows;
      this.partitions := partitions;
    }

    /** DeleteChunk: returns what was deleted. */
    method DeleteChunk(p: Policy, cutoff: int, chunk: nat) returns (deleted: nat, ghost gone: set<Key>)
      modifies this`rows
      ensures Oldest(Deletable(old(rows), p, cutoff), gone, chunk)
      ensures rows == old(rows) - gone && deleted == |gone|
    {
      var picked := PickOldest(Deletable(rows, p, cutoff), chunk);
      rows := rows - picked;
      deleted := |picked|;
      gone := picked;
    }

    /** The delete loop: removes exactly min(eligible, cap) rows, oldest first. */
    method DeleteLoop(p: Policy, cutoff: int, maxRows: nat) returns (deleted: nat, ghost gone: set<Key>)
      requires p.chunkSize > 0
      modifies this`rows
      ensures Oldest(Deletable(old(rows), p, cutoff), gone, maxRows)
      ensures rows == old(rows) - gone && deleted == |gone|
    {
      hide Deletable, OldestFirst, Oldest;
      deleted, gone := 0, {};
      NothingGone(Deletable(rows, p, cutoff), maxRows);
      ghost var all := Deletable(rows, p, cutoff);
      while deleted < maxRows
        invariant deleted == |gone| <= Min(maxRows, |all|) && OldestFirst(all, gone)
        invariant deleted == maxRows ==> Oldest(all, gone, maxRows)
        invariant rows == old(rows) - gone
        decreases maxRows - deleted
      {
        var remaining := maxRows - deleted;
        var chunk := if remaining < p.chunkSize then remaining else p.chunkSize;
        var n;
        ghost var more;
        DeletableWithout(old(rows), gone, p, cutoff);
        n, more := DeleteChunk(p, cutoff, chunk);
        ChunkStep(all, gone, more, chunk, maxRows);
        assert old(rows) - gone - more == old(rows) - (gone + more);
        deleted, gone := deleted + n, gone + more;
        if n < chunk {
          break;
        }
      }
    }

    /** RollupBeforeDelete: rows read and rows written; on an error nothing is written. */
    method RollupBeforeDelete(p: Policy, cutoff: int, dryRun: bool) returns (r: Result<(nat, nat), string>)
      modifies this`rows
      ensures r.Err? || dryRun ==> rows == old(rows)
      ensures r.Ok? <==> RollupRuns(old(rows), p, cutoff, dryRun)
      ensures r.Ok? && !dryRun && p.rollupBeforeDelete ==> Some(rows) == AfterRollup(old(rows), p, cutoff)
      ensures r.Ok? && dryRun ==> r.value.1 == 0
      ensures r.Ok? ==> r.value.0 == |Eligible(old(rows), p.intervalValue, cutoff)|
      ensures r.Ok? && !dryRun && SpecFor(p.intervalValue).Some? ==>
        var spec := SpecFor(p.intervalValue).value;
        r.value.1 == |Targets(Eligible(old(rows), p.intervalValue, cutoff), spec.target, Size(spec))|
    {
      if p.tableName != "derivative_klines" {
        return Err("rollup_before_delete is only supported for derivative_klines");
      }
      var spec := SpecFor(p.intervalValue);
      if spec.None? {
        return Err("no kline rollup target");
      }
      var source := Eligible(rows, p.intervalValue, cutoff);
      if |source| == 0 || dryRun {
        if !dryRun { NothingToRollUp(rows, source, spec.value.target, Size(spec.value)); }
        return Ok((|source|, 0));
      }
      var grouped := GroupRows(rows, source, spec.value.target, Size(spec.value));
      if grouped.None? {
        return Err("rollup target row proposed twice");
      }
      NewRowsAreClosed(rows, source, spec.value.target, Size(spec.value));
      rows := Upserted(rows, grouped.value);
      return Ok((|source|, |grouped.value|));
    }

    /**
      RunPlanItem.  `gone` are the rows the delete loop removed.  A dry run and a failed
      run change nothing.  Otherwise the rollup runs first; then either the droppable
      partitions go, or the delete loop runs on the table the rollup left.
     */
    method RunPlanItem(item: PlanItem, options: Options) returns (r: Result<Cleanup, string>, ghost gone: set<Key>)
      modifies this
      ensures r.Err? || item.dryRun ==> rows == old(rows) && partitions == old(partitions)
      ensures r.Ok? <==>
        && ValidatePolicy(item.policy).Ok? && !options.diskPressureCritical
        && (item.policy.rollupBeforeDelete ==> RollupRuns(old(rows), item.policy, item.cutoff, item.dryRun))
      ensures r.Ok? ==>
        && r.value.rowsMatched == |Deletable(old(rows), item.policy, item.cutoff)|
        && r.value.partitionsMatched == |DropsOf(item, old(partitions))|
      ensures r.Ok? && item.dryRun ==> r.value.rowsDeleted == 0 && r.value.partitionsDropped == 0 && r.value.rollupWritten == 0
      ensures r.Ok? && !item.dryRun ==> AfterRollup(old(rows), item.policy, item.cutoff).Some?
      ensures r.Ok? && !item.dryRun ==>
        var rolled := AfterRollup(old(rows), item.policy, item.cutoff).value;
        var drops := DropsOf(item, old(partitions));
        && (drops != [] ==>
              && rows == WithoutRanges(rolled, drops) && r.value.partitionsDropped == |drops| && r.value.rowsDeleted == 0
              && partitions == WithoutNames(old(partitions), drops))
        && (drops == [] ==>
              && Oldest(Deletable(rolled, item.policy, item.cutoff), gone, EffectiveMaxRows(item.policy, options.maxRowsPerRun))
              && rows == rolled - gone && r.value.rowsDeleted == |gone| && partitions == old(partitions))
    {
      gone := {};
      var p := item.policy;
      var valid := ValidatePolicy(p);
      if valid.Err? {
        return Err(valid.error), gone;
      }
      if options.diskPressureCritical {
        return Err("cleanup stopped: disk pressure is critical"), gone;
      }
      var matched := |Deletable(rows, p, item.cutoff)|;
      var read, written := 0, 0;
      if p.rollupBeforeDelete {
        var rollup := RollupBeforeDelete(p, item.cutoff, item.dryRun);
        if rollup.Err? {
          return Err(rollup.error), gone;
        }
        read, written := rollup.value.0, rollup.value.1;
      }
      var drops: seq<Partitions.Partition> := [];
      if item.usePartitionDrop {
        drops := Partitions.EligiblePartitions(p.tableName, partitions, item.cutoff);
        if drops != [] && !item.dryRun {
          DropAll(drops);
          return Ok(Cleanup(matched, 0, |drops|, |drops|, read, written)), gone;
        }
      }
      if item.dryRun {
        return Ok(Cleanup(matched, 0, |drops|, 0, read, written)), gone;
      }
      var deleted;
      deleted, gone := DeleteLoop(p, item.cutoff, EffectiveMaxRows(p, options.maxRowsPerRun));
      return Ok(Cleanup(matched, deleted, |drops|, 0, read, written)), gone;
    }

    /** DropPartition for each: its rows disappear with it. */
    method DropAll(drops: seq<Partitions.Partition>)
      modifies this
      ensures rows == WithoutRanges(old(rows), drops)
      ensures partitions == WithoutNames(old(partitions), drops)
    {
      var i := 0;
      while i < |drops|
        invariant 0 <= i <= |drops|
        invariant rows == WithoutRanges(old(rows), drops[..i])
        invariant partitions == WithoutNames(old(partitions), drops[..i])
      {
        assert drops[..i + 1][..i] == drops[..i];
        rows := WithoutRange(rows, drops[i]);
        partitions := WithoutName(partitions, drops[i].name);
        i := i + 1;
      }
      assert drops[..i] == drops;
    }
  }

  function WithoutRange(t: Table, drop: Partitions.Partition): Table {
    map k | k in t && !Partitions.InRange(drop.range, k.openTime) :: t[k]
  }

  function WithoutRanges(t: Table, drops: seq<Partitions.Partition>): Table {
    if drops == [] then t else WithoutRange(WithoutRanges(t, drops[..|drops| - 1]), drops[|drops| - 1])
  }

  function WithoutName(names: seq<string>, name: string): seq<string> {
    if names == [] then []
    else if names[0] == name then WithoutName(names[1..], name)
    else [names[0]] + WithoutName(names[1..], name)
  }

  function WithoutNames(names: seq<string>, drops: seq<Partitions.Partition>): seq<string> {
    if drops == [] then names else WithoutName(WithoutNames(names, drops[..|drops| - 1]), drops[|drops| - 1].name)
  }

  lemma {:induction false} WithoutNameHolds(names: seq<string>, name: string, x: string)
    ensures x in WithoutName(names, name) <==> x in names && x != name
  {
    if names != [] { WithoutNameHolds(names[1..], name, x); }
  }

  /** The listing loses exactly the dropped partitions. */
  lemma {:induction false} DropsExactlyNames(names: seq<string>, drops: seq<Partitions.Partition>, x: string)
    ensures x in WithoutNames(names, drops) <==> x in names && forall i :: 0 <= i < |drops| ==> drops[i].name != x
  {
    if drops != [] {
      var init := drops[..|drops| - 1];
      DropsExactlyNames(names, init, x);
      WithoutNameHolds(WithoutNames(names, init), drops[|drops| - 1].name, x);
    }
  }

  lemma NothingToRollUp(t: Table, source: set<Key>, target: string, size: int)
    requires size > 0 && source <= t.Keys && source == {}
    ensures !Clash(t, source, size) && Targets(source, target, size) == {}
    ensures Upserted(t, NewRows(t, source, target, size)) == t
  {
  }

  // ----------------------------------------------------------- what a run guarantees

  /** Rows outside every dropped range survive; rows inside one are gone. */
  lemma {:induction false} DropsExactlyRanges(t: Table, drops: seq<Partitions.Partition>, k: Key)
    requires k in t
    ensures k in WithoutRanges(t, drops) <==> forall p :: p in drops ==> !Partitions.InRange(p.range, k.openTime)
    ensures k in WithoutRanges(t, drops) ==> WithoutRanges(t, drops)[k] == t[k]
  {
    if drops != [] {
      var init, last := drops[..|drops| - 1], drops[|drops| - 1];
      DropsExactlyRanges(t, init, k);
      assert last in drops;
      assert forall p :: p in drops ==> p in init || p == last;
    }
  }

  /**
    Whatever a planned run removes, by chunks or by partition, is older than both the
    table's and the policy's safety minimum.
   */
  lemma {:induction false} RemovedRowsAreOld(policies: seq<Policy>, now: int, item: PlanItem, t: Table, names: seq<string>, gone: set<Key>, n: int, k: Key)
    requires Planned(policies, now).Ok? && item in Planned(policies, now).value && k in t
    requires
      || (Oldest(Deletable(t, item.policy, item.cutoff), gone, n) && k in gone)
      || k !in WithoutRanges(t, Partitions.DroppableOf(item.policy.tableName, names, item.cutoff))
    ensures ValidatePolicy(item.policy).Ok?
    ensures k.openTime < now - ValidatePolicy(item.policy).value.minRetentionDays * Calendar.DAY
    ensures k.openTime < now - item.policy.minRetentionDays * Calendar.DAY
  {
    PlannedCutoffsAreSafe(policies, now, item);
    if k !in WithoutRanges(t, Partitions.DroppableOf(item.policy.tableName, names, item.cutoff)) {
      var drops := Partitions.DroppableOf(item.policy.tableName, names, item.cutoff);
      DropsExactlyRanges(t, drops, k);
      Partitions.DropsOnlyOldRanges(item.policy.tableName, names, item.cutoff);
    }
  }

  /**
    `k` is counted by the rollup from `t` to `rolled`: in exactly one target candle, which
    holds the aggregates of the group of rows that `k` belongs to.
   */
  ghost predicate Counted(t: Table, rolled: Table, source: set<Key>, target: string, size: int, k: Key)
    requires size > 0 && source <= t.Keys
  {
    var tk := TargetKey(k, target, size);
    var group := Members(source, target, size, tk);
    && k in group
    && (forall other :: k in Members(source, target, size, other) ==> other == tk)
    && tk in rolled
    && HoldsColumns(rolled[tk], Fold(t, group))
    && (tk !in t ==> rolled[tk].open == Fold(t, group).first.price)
  }

  predicate HoldsColumns(c: Candle, a: Agg) {
    c.closeTime == a.closeTime && c.high == a.high && c.low == a.low && c.close == a.last.price && c.sums == a.sums && c.closed
  }

  /**
    A run that rolls up first: a removed row was counted in a target candle exactly when it
    was a closed row of the rolled up interval.  A run that filters on the interval column
    removes no other rows than those of the interval.
   */
  lemma RemovedRowsWereCounted(t: Table, rolled: Table, p: Policy, spec: Spec, cutoff: int, gone: set<Key>, n: int, k: Key)
    requires p.rollupBeforeDelete && SpecFor(p.intervalValue) == Some(spec) && Size(spec) > 0
    requires AfterRollup(t, p, cutoff) == Some(rolled)
    requires Oldest(Deletable(rolled, p, cutoff), gone, n) && k in gone
    ensures p.intervalColumn != "" ==> k.interval == p.intervalValue
    ensures k in rolled && (k.interval == p.intervalValue ==> k in t && rolled[k] == t[k])
    ensures Counted(t, rolled, Eligible(t, p.intervalValue, cutoff), spec.target, Size(spec), k) <==>
            k in t && k.interval == p.intervalValue && t[k].closed
  {
    hide Bucket, Fold, NewRows, Upserted, RolledUp, Counted, SpecFor, Size;
    assert RolledUp(t, p.intervalValue, spec, cutoff) == Some(rolled);
    TargetsDiffer(p.intervalValue);
    UpsertMeaning(t, p.intervalValue, spec, cutoff);
    NewRowsAreClosed(t, Eligible(t, p.intervalValue, cutoff), spec.target, Size(spec));
    if k in Eligible(t, p.intervalValue, cutoff) {
      ClosedRowIsCounted(t, p.intervalValue, spec, cutoff, k);
    } else {
      OtherRowIsNotCounted(t, rolled, p.intervalValue, spec, cutoff, k);
    }
  }

  lemma TargetsDiffer(interval: string)
    requires SpecFor(interval).Some?
    ensures SpecFor(interval).value.target != interval && Size(SpecFor(interval).value) > 0
  {
  }

  lemma OtherRowIsNotCounted(t: Table, rolled: Table, interval: string, spec: Spec, cutoff: int, k: Key)
    requires Size(spec) > 0 && k !in Eligible(t, interval, cutoff)
    ensures !Counted(t, rolled, Eligible(t, interval, cutoff), spec.target, Size(spec), k)
  {
  }

  lemma ClosedRowIsCounted(t: Table, interval: string, spec: Spec, cutoff: int, k: Key)
    requires Size(spec) > 0 && RolledUp(t, interval, spec, cutoff).Some?
    requires k in Eligible(t, interval, cutoff)
    ensures Counted(t, RolledUp(t, interval, spec, cutoff).value, Eligible(t, interval, cutoff), spec.target, Size(spec), k)
  {
    hide Bucket, Fold, RolledUp;
    var source, tk := Eligible(t, interval, cutoff), TargetKey(k, spec.target, Size(spec));
    UpsertMeaning(t, interval, spec, cutoff);
    assert k in Members(source, spec.target, Size(spec), tk);
    assert tk in Targets(source, spec.target, Size(spec));
  }
}
