/**
  Cumulative volume delta (internal/repositories/advanced.go): cvd_snapshots stores a
  running sum per series, extended row by row from the latest earlier row.
 */
module Cvd {
  import opened Wrappers

  datatype Series = Series(symbolId: int, exchange: string, period: string)

  /** The unique index (symbol_id, exchange, period, snapshot_time). */
  datatype Slot = Slot(series: Series, at: int)

  datatype Row = Row(value: Option<real>, change: Option<real>)

  type Table = map<Slot, Row>

  datatype Flow = Flow(
    series: Series,
    at: int,
    buy: Option<real>,
    sell: Option<real>,
    buyQuote: Option<real>,
    sellQuote: Option<real>,
    delta: Option<real>,
    deltaQuote: Option<real>)

  function Filled(given: Option<real>, buy: Option<real>, sell: Option<real>): Option<real> {
    if given.None? && buy.Some? && sell.Some? then Some(buy.value - sell.value) else given
  }

  /** fillTakerFlowDeltas, then the quote delta if there is one. */
  function Change(f: Flow): Option<real> {
    var quote := Filled(f.deltaQuote, f.buyQuote, f.sellQuote);
    if quote.Some? then quote else Filled(f.delta, f.buy, f.sell)
  }

  // --------------------------------------------------------------------- the running sum

  /** The latest of some slots. */
  ghost function Latest(slots: set<Slot>): (m: Slot)
    requires slots != {}
    ensures m in slots && forall u :: u in slots ==> u.at <= m.at
  {
    var x :| x in slots;
    if slots == {x} then x
    else
      assert slots == (slots - {x}) + {x};
      var m := Latest(slots - {x});
      if x.at < m.at then m else x
  }

  function SlotsBefore(t: Table, s: Series, before: int): set<Slot> {
    set slot | slot in t && slot.series == s && slot.at < before
  }

  function ChangeAt(t: Table, slot: Slot): real {
    if slot in t && t[slot].change.Some? then t[slot].change.value else 0.0
  }

  function ValueAt(t: Table, slot: Slot): real {
    if slot in t && t[slot].value.Some? then t[slot].value.value else 0.0
  }

  /** The sum of the changes in the given slots. */
  ghost function SumOf(t: Table, slots: set<Slot>): real {
    if slots == {} then 0.0
    else
      var m := Latest(slots);
      SumOf(t, slots - {m}) + ChangeAt(t, m)
  }

  /** The sum of all changes of the series up to and including `at`. */
  ghost function RunningSum(t: Table, s: Series, at: int): real {
    SumOf(t, SlotsBefore(t, s, at + 1))
  }

  /** Every stored row carries the running sum of the stored changes. */
  ghost predicate Consistent(t: Table, s: Series) {
    forall slot :: slot in t && slot.series == s ==>
      t[slot].change.Some? && t[slot].value == Some(RunningSum(t, s, slot.at))
  }

  /** previousCVD: the value of the latest earlier row, 0 without one. */
  ghost function Previous(t: Table, s: Series, before: int): real {
    var slots := SlotsBefore(t, s, before);
    if slots == {} then 0.0 else ValueAt(t, Latest(slots))
  }

  /** A row extends the row before it. */
  ghost predicate Extends(t: Table, s: Series, at: int) {
    && Slot(s, at) in t && t[Slot(s, at)].change.Some?
    && t[Slot(s, at)].value == Some(Previous(t, s, at) + t[Slot(s, at)].change.value)
  }

  lemma LatestUnique(slots: set<Slot>, m: Slot)
    requires m in slots && forall u :: u in slots ==> u.at <= m.at && u.series == m.series
    ensures Latest(slots) == m
  {
  }

  /** The value continued from: that of the latest earlier row, zero if it is null; zero also without such a row. */
  lemma PreviousIs(t: Table, s: Series, before: int, m: Slot)
    ensures (m in t && m.series == s && m.at < before && forall u :: u in t && u.series == s && u.at < before ==> u.at <= m.at) ==>
            Previous(t, s, before) == match t[m].value case Some(value) => value case None => 0.0
    ensures (forall u :: u in t && u.series == s ==> before <= u.at) ==> Previous(t, s, before) == 0.0
  {
    hide Latest;
    if m in SlotsBefore(t, s, before) && forall u :: u in SlotsBefore(t, s, before) ==> u.at <= m.at { LatestUnique(SlotsBefore(t, s, before), m); }
  }

  lemma RunningSumStep(t: Table, s: Series, at: int)
    requires Slot(s, at) in t
    ensures RunningSum(t, s, at) == SumOf(t, SlotsBefore(t, s, at)) + ChangeAt(t, Slot(s, at))
    ensures SlotsBefore(t, s, at) != {} ==> SumOf(t, SlotsBefore(t, s, at)) == RunningSum(t, s, Latest(SlotsBefore(t, s, at)).at)
  {
    var upto, before := SlotsBefore(t, s, at + 1), SlotsBefore(t, s, at);
    LatestUnique(upto, Slot(s, at));
    assert upto - {Slot(s, at)} == before;
    if before != {} {
      assert SlotsBefore(t, s, Latest(before).at + 1) == before;
    }
  }

  /** Running sums everywhere is the same as every row extending its predecessor. */
  lemma ConsistentIffExtends(t: Table, s: Series)
    ensures Consistent(t, s) <==> forall slot :: slot in t && slot.series == s ==> Extends(t, s, slot.at)
  {
    hide SumOf, Latest, RunningSum;
    if Consistent(t, s) {
      forall slot | slot in t && slot.series == s ensures Extends(t, s, slot.at) {
        ConsistentPrevious(t, s, slot.at);
        RunningSumStep(t, s, slot.at);
      }
    }
    if forall slot :: slot in t && slot.series == s ==> Extends(t, s, slot.at) {
      forall slot | slot in t && slot.series == s
        ensures t[slot].change.Some? && t[slot].value == Some(RunningSum(t, s, slot.at))
      {
        ExtendsSums(t, s, slot.at);
      }
    }
  }

  lemma SumOfNone(t: Table)
    ensures SumOf(t, {}) == 0.0
  {
  }

  lemma ConsistentPrevious(t: Table, s: Series, at: int)
    requires Consistent(t, s)
    ensures Previous(t, s, at) == SumOf(t, SlotsBefore(t, s, at))
  {
    hide SumOf, Latest;
    SumOfNone(t);
    var before := SlotsBefore(t, s, at);
    if before != {} {
      assert SlotsBefore(t, s, Latest(before).at + 1) == before;
    }
  }

  lemma {:induction false} ExtendsSums(t: Table, s: Series, at: int)
    requires forall slot :: slot in t && slot.series == s ==> Extends(t, s, slot.at)
    requires Slot(s, at) in t
    ensures t[Slot(s, at)].value == Some(RunningSum(t, s, at))
    decreases SlotsBefore(t, s, at)
  {
    assert Extends(t, s, at);
    RunningSumStep(t, s, at);
    var before := SlotsBefore(t, s, at);
    if before != {} {
      var m := Latest(before);
      assert SlotsBefore(t, s, m.at) <= before && m !in SlotsBefore(t, s, m.at);
      assert Slot(s, m.at) == m;
      ExtendsSums(t, s, m.at);
    }
  }

  // ---------------------------------------------------------------------- the batch

  ghost function Applied(t: Table, f: Flow): Table {
    if Change(f).None? then t
    else t[Slot(f.series, f.at) := Row(Some(Previous(t, f.series, f.at) + Change(f).value), Change(f))]
  }

  /** UpsertCVDFromTakerFlows. */
  ghost function AppliedAll(t: Table, flows: seq<Flow>): Table {
    if flows == [] then t else Applied(AppliedAll(t, flows[..|flows| - 1]), flows[|flows| - 1])
  }

  /** Flows of one series, in time order, all with a change. */
  ghost predicate Sorted(flows: seq<Flow>, s: Series) {
    && (forall i :: 0 <= i < |flows| && flows[i].series == s ==> Change(flows[i]).Some?)
    && (forall i, j :: 0 <= i < j < |flows| && flows[i].series == s && flows[j].series == s ==> flows[i].at <= flows[j].at)
  }

  predicate Has(flows: seq<Flow>, s: Series, at: int) {
    exists i :: 0 <= i < |flows| && flows[i].series == s && flows[i].at == at
  }

  /** The batch holds every stored row of the series from its own first instant on. */
  ghost predicate Covers(t: Table, flows: seq<Flow>, s: Series) {
    forall slot, i :: slot in t && slot.series == s && 0 <= i < |flows| && flows[i].series == s && flows[i].at <= slot.at ==>
      Has(flows, s, slot.at)
  }

  /** Writing a row changes nothing that earlier rows of its series, or other series, depend on. */
  lemma AppliedFrame(t: Table, f: Flow, s: Series, at: int)
    requires s != f.series || at <= f.at
    ensures Previous(Applied(t, f), s, at) == Previous(t, s, at)
  {
  }

  /** Rows come from the table or from the batch. */
  lemma {:induction false} RowsAreStoredOrWritten(t: Table, flows: seq<Flow>, slot: Slot)
    ensures slot in AppliedAll(t, flows) ==> slot in t || Has(flows, slot.series, slot.at)
    ensures slot in t || (exists i :: 0 <= i < |flows| && Slot(flows[i].series, flows[i].at) == slot && Change(flows[i]).Some?) ==>
              slot in AppliedAll(t, flows)
  {
    if flows != [] {
      var init, last := flows[..|flows| - 1], flows[|flows| - 1];
      assert forall i :: 0 <= i < |init| ==> init[i] == flows[i];
      RowsAreStoredOrWritten(t, init, slot);
    }
  }

  lemma HasTail(flows: seq<Flow>, s: Series, n: nat, at: int)
    requires n < |flows|
    ensures Has(flows[n..], s, at) <==> (flows[n].series == s && flows[n].at == at) || Has(flows[n + 1..], s, at)
  {
  }

  /** A row later than the flow at `n` comes from the table, and the rest of the batch rewrites it. */
  lemma LaterRowsArePending(t: Table, flows: seq<Flow>, s: Series, n: nat, at: int)
    requires n < |flows| && Sorted(flows, s) && Covers(t, flows, s)
    requires flows[n].series == s && flows[n].at < at && Slot(s, at) in AppliedAll(t, flows[..n])
    ensures Has(flows[n + 1..], s, at)
  {
    RowsAreStoredOrWritten(t, flows[..n], Slot(s, at));
    assert Slot(s, at) in t;
    var j :| 0 <= j < |flows| && flows[j].series == s && flows[j].at == at;
    assert flows[n + 1..][j - n - 1] == flows[j];
  }

  /** After each prefix of the batch a row extends its predecessor or is still to be rewritten. */
  lemma {:induction false} PrefixExtends(t: Table, flows: seq<Flow>, s: Series, n: nat, at: int)
    requires n <= |flows| && Consistent(t, s) && Sorted(flows, s) && Covers(t, flows, s)
    requires Slot(s, at) in AppliedAll(t, flows[..n])
    ensures Extends(AppliedAll(t, flows[..n]), s, at) || Has(flows[n..], s, at)
  {
    hide Previous, Consistent, Covers;
    if n == 0 {
      ConsistentIffExtends(t, s);
      assert flows[..0] == [];
    } else {
      var f, before := flows[n - 1], AppliedAll(t, flows[..n - 1]);
      assert flows[..n][..n - 1] == flows[..n - 1];
      HasTail(flows, s, n - 1, at);
      if f.series == s && f.at < at {
        LaterRowsArePending(t, flows, s, n - 1, at);
      } else {
        AppliedFrame(before, f, s, at);
        if f.series != s || f.at != at {
          PrefixExtends(t, flows, s, n - 1, at);
        }
      }
    }
  }

  /**
    From a consistent table, a time-sorted batch that covers the stored rows from its first
    instant on leaves every value equal to the running sum of the changes, even where the
    batch revised stored changes.
   */
  lemma BatchKeepsConsistent(t: Table, flows: seq<Flow>, s: Series)
    requires Consistent(t, s) && Sorted(flows, s) && Covers(t, flows, s)
    ensures Consistent(AppliedAll(t, flows), s)
  {
    hide Consistent, Extends, Covers;
    var t' := AppliedAll(t, flows);
    forall slot | slot in t' && slot.series == s ensures Extends(t', s, slot.at) {
      assert flows[..|flows|] == flows && Slot(s, slot.at) == slot;
      PrefixExtends(t, flows, s, |flows|, slot.at);
    }
    ConsistentIffExtends(t', s);
  }

  // ----------------------------------------------------------------- replaying a batch

  /** The change the batch leaves at an instant: that of its last flow there. */
  function LastChange(flows: seq<Flow>, slot: Slot): Option<real> {
    if flows == [] then None
    else
      var f := flows[|flows| - 1];
      if Slot(f.series, f.at) == slot && Change(f).Some? then Change(f) else LastChange(flows[..|flows| - 1], slot)
  }

  lemma {:induction false} ChangesAfterBatch(t: Table, flows: seq<Flow>, slot: Slot)
    requires slot in AppliedAll(t, flows)
    ensures LastChange(flows, slot).Some? ==> AppliedAll(t, flows)[slot].change == LastChange(flows, slot)
    ensures LastChange(flows, slot).None? ==> slot in t && AppliedAll(t, flows)[slot] == t[slot]
  {
    hide Previous;
    if flows != [] {
      var init, f := flows[..|flows| - 1], flows[|flows| - 1];
      if Slot(f.series, f.at) != slot || Change(f).None? { ChangesAfterBatch(t, init, slot); }
    }
  }

  lemma {:induction false} SumsAgree(t: Table, u: Table, slots: set<Slot>)
    requires forall slot :: slot in slots ==> ChangeAt(t, slot) == ChangeAt(u, slot)
    ensures SumOf(t, slots) == SumOf(u, slots)
    decreases slots
  {
    if slots != {} { SumsAgree(t, u, slots - {Latest(slots)}); }
  }

  /** A consistent series is determined by its instants and changes. */
  lemma ConsistentIsUnique(t: Table, u: Table, s: Series, slot: Slot)
    requires Consistent(t, s) && Consistent(u, s) && slot.series == s && slot in t
    requires forall k: Slot :: k.series == s ==> (k in t <==> k in u) && (k in t ==> t[k].change == u[k].change)
    ensures slot in u && t[slot] == u[slot]
  {
    hide SumOf;
    assert SlotsBefore(t, s, slot.at + 1) == SlotsBefore(u, s, slot.at + 1);
    SumsAgree(t, u, SlotsBefore(t, s, slot.at + 1));
  }

  /** Replaying a batch leaves the series as the first pass did, duplicates in the batch included. */
  lemma ReplayChangesNothing(t: Table, flows: seq<Flow>, s: Series, slot: Slot)
    requires Consistent(t, s) && Sorted(flows, s) && Covers(t, flows, s) && slot.series == s
    ensures var once := AppliedAll(t, flows);
            var twice := AppliedAll(once, flows);
            (slot in twice <==> slot in once) && (slot in once ==> twice[slot] == once[slot])
  {
    hide Consistent, Previous;
    var once := AppliedAll(t, flows);
    var twice := AppliedAll(once, flows);
    BatchKeepsConsistent(t, flows, s);
    assert Covers(once, flows, s) by {
      forall k, i | k in once && k.series == s && 0 <= i < |flows| && flows[i].series == s && flows[i].at <= k.at
        ensures Has(flows, s, k.at)
      {
        RowsAreStoredOrWritten(t, flows, k);
      }
    }
    BatchKeepsConsistent(once, flows, s);
    forall k: Slot | k.series == s
      ensures k in once <==> k in twice
      ensures k in once ==> once[k].change == twice[k].change
    {
      RowsAreStoredOrWritten(t, flows, k);
      RowsAreStoredOrWritten(once, flows, k);
      if Has(flows, s, k.at) {
        var i :| 0 <= i < |flows| && flows[i].series == s && flows[i].at == k.at;
        assert Slot(flows[i].series, flows[i].at) == k && Change(flows[i]).Some?;
      }
      if k in once {
        ChangesAfterBatch(t, flows, k);
        ChangesAfterBatch(once, flows, k);
      }
    }
    if slot in once { ConsistentIsUnique(once, twice, s, slot); }
  }

  // ------------------------------------------------------- when coverage is missing

  /**
    One flow on its own keeps the series consistent exactly when it is the newest row, or
    leaves the running value at its instant as it was.
   */
  lemma OneFlowIff(t: Table, f: Flow)
    requires Consistent(t, f.series) && Change(f).Some?
    ensures var previous, slot := Previous(t, f.series, f.at), Slot(f.series, f.at);
            Consistent(Applied(t, f), f.series) <==>
              || (forall k :: k in t && k.series == f.series ==> k.at <= f.at)
              || previous + Change(f).value == (if slot in t then ValueAt(t, Slot(f.series, f.at)) else previous)
  {
    hide Consistent, Previous;
    var s, t' := f.series, Applied(t, f);
    ConsistentIffExtends(t, s);
    ConsistentIffExtends(t', s);
    AppliedFrame(t, f, s, f.at);
    assert Extends(t', s, f.at);
    forall k | k in t && k.series == s && k.at < f.at ensures Extends(t', s, k.at) {
      AppliedFrame(t, f, s, k.at);
    }
    forall k | k in t && k.series == s && k.at > f.at
      ensures Extends(t', s, k.at) <==> Previous(t', s, k.at) == Previous(t, s, k.at)
    {
      assert Slot(s, k.at) == k && t'[k] == t[k];
    }
    LaterPrevious(t, f);
  }

  /** What a later row sees: its predecessor is the new row, or is unaffected. */
  lemma LaterPrevious(t: Table, f: Flow)
    requires Change(f).Some?
    ensures var s, t' := f.series, Applied(t, f);
            var same := Previous(t, s, f.at) + Change(f).value
                        == (if Slot(s, f.at) in t then ValueAt(t, Slot(s, f.at)) else Previous(t, s, f.at));
            && (same ==> forall at :: at > f.at ==> Previous(t', s, at) == Previous(t, s, at))
            && (forall k :: k in t && k.series == s && k.at > f.at ==>
                  exists j :: j in t && j.series == s && j.at > f.at && (Previous(t', s, j.at) == Previous(t, s, j.at) <==> same))
  {
    var s, t' := f.series, Applied(t, f);
    forall at | at > f.at
      ensures SeesNewRow(t, f, at) || Previous(t', s, at) == Previous(t, s, at)
      ensures SeesNewRow(t, f, at) ==> Previous(t', s, at) == Previous(t, s, f.at) + Change(f).value
      ensures SeesNewRow(t, f, at) ==>
        Previous(t, s, at) == (if Slot(s, f.at) in t then ValueAt(t, Slot(s, f.at)) else Previous(t, s, f.at))
    {
      PreviousAfter(t, f, at);
    }
    forall k | k in t && k.series == s && k.at > f.at
      ensures exists j :: j in t && j.series == s && j.at > f.at && SeesNewRow(t, f, j.at)
    {
      FirstLater(t, f, k.at);
    }
  }

  /** No stored row lies strictly between the flow and `at`. */
  ghost predicate SeesNewRow(t: Table, f: Flow, at: int) {
    forall k :: k in t && k.series == f.series ==> !(f.at < k.at < at)
  }

  lemma PreviousAfter(t: Table, f: Flow, at: int)
    requires Change(f).Some? && at > f.at
    ensures var s, t' := f.series, Applied(t, f);
            if SeesNewRow(t, f, at) then
              && Previous(t', s, at) == Previous(t, s, f.at) + Change(f).value
              && Previous(t, s, at) == (if Slot(s, f.at) in t then ValueAt(t, Slot(s, f.at)) else Previous(t, s, f.at))
            else Previous(t', s, at) == Previous(t, s, at)
  {
    hide Latest;
    var s, t' := f.series, Applied(t, f);
    var slot, slots, slots' := Slot(s, f.at), SlotsBefore(t, s, at), SlotsBefore(t', s, at);
    assert slots' == slots + {slot};
    if SeesNewRow(t, f, at) {
      LatestUnique(slots', slot);
      if slot in t {
        assert slots' == slots;
      } else {
        assert slots == SlotsBefore(t, s, f.at);
      }
    } else {
      var k :| k in t && k.series == s && f.at < k.at < at;
      assert k in slots;
      LatestUnique(slots', Latest(slots));
    }
  }

  lemma {:induction false} FirstLater(t: Table, f: Flow, at: int)
    requires Slot(f.series, at) in t && at > f.at
    ensures exists j :: j in t && j.series == f.series && j.at > f.at && SeesNewRow(t, f, j.at)
    decreases at - f.at
  {
    if SeesNewRow(t, f, at) {
      assert Slot(f.series, at).series == f.series;
    } else {
      var k :| k in t && k.series == f.series && f.at < k.at < at;
      assert Slot(f.series, k.at) == k;
      FirstLater(t, f, k.at);
    }
  }

  // ------------------------------------------------------------ what the sum adds up

  /** A flow that carries volumes and no deltas: in the quote currency, or else only in the base currency. */
  predicate HasVolumes(f: Flow, quoted: bool) {
    && f.deltaQuote.None? && (quoted <==> f.buyQuote.Some? && f.sellQuote.Some?)
    && (!quoted ==> f.delta.None? && f.buy.Some? && f.sell.Some?)
  }

  ghost predicate Plain(flows: seq<Flow>, s: Series, quoted: bool) {
    && (forall i :: 0 <= i < |flows| && flows[i].series == s ==> HasVolumes(flows[i], quoted))
    && (forall i, j :: 0 <= i < j < |flows| && flows[i].series == s && flows[j].series == s ==> flows[i].at < flows[j].at)
  }

  function Bought(flows: seq<Flow>, s: Series, quoted: bool): real
    requires Plain(flows, s, quoted)
  {
    if flows == [] then 0.0
    else
      var f := flows[|flows| - 1];
      Bought(flows[..|flows| - 1], s, quoted) + if f.series != s then 0.0 else if quoted then f.buyQuote.value else f.buy.value
  }

  function Sold(flows: seq<Flow>, s: Series, quoted: bool): real
    requires Plain(flows, s, quoted)
  {
    if flows == [] then 0.0
    else
      var f := flows[|flows| - 1];
      Sold(flows[..|flows| - 1], s, quoted) + if f.series != s then 0.0 else if quoted then f.sellQuote.value else f.sell.value
  }

  /**
    On a series without rows, flows in time order leave behind what was bought less what was
    sold: in the quote currency, whatever the base volumes are, and in the base currency
    when the quote volumes are incomplete.
   */
  lemma {:induction false} NetVolume(t: Table, flows: seq<Flow>, s: Series, quoted: bool, at: int)
    requires (forall k :: k in t ==> k.series != s) && Plain(flows, s, quoted)
    requires forall i :: 0 <= i < |flows| && flows[i].series == s ==> flows[i].at < at
    ensures Previous(AppliedAll(t, flows), s, at) == Bought(flows, s, quoted) - Sold(flows, s, quoted)
  {
    hide Latest;
    if flows != [] {
      var init, f := flows[..|flows| - 1], flows[|flows| - 1];
      var u := AppliedAll(t, init);
      assert forall i :: 0 <= i < |init| ==> init[i] == flows[i];
      if f.series != s {
        NetVolume(t, init, s, quoted, at);
        AppliedFrame(u, f, s, at);
      } else {
        NetVolume(t, init, s, quoted, f.at);
        forall k | k in u && k.series == s ensures k.at < f.at { RowsAreStoredOrWritten(t, init, k); }
        assert HasVolumes(f, quoted);
        PreviousAfter(u, f, at);
      }
    }
  }

  /** A delta that the exchange reports itself goes before the volumes, quote before base. */
  lemma ReportedDeltaWins(f: Flow)
    ensures f.deltaQuote.Some? ==> Change(f) == f.deltaQuote
    ensures f.deltaQuote.None? && !(f.buyQuote.Some? && f.sellQuote.Some?) && f.delta.Some? ==> Change(f) == f.delta
    ensures Change(f).None? <==> f.deltaQuote.None? && f.delta.None? && !(f.buyQuote.Some? && f.sellQuote.Some?) && !(f.buy.Some? && f.sell.Some?)
  {
  }

  // ------------------------------------------------------------------- the code itself

  /** How many flows carry a change. */
  function Changes(flows: seq<Flow>): nat {
    if flows == [] then 0 else Changes(flows[..|flows| - 1]) + if Change(flows[|flows| - 1]).Some? then 1 else 0
  }

  /** That is the number of their places in the batch. */
  lemma {:induction false} ChangesAreCounted(flows: seq<Flow>)
    ensures Changes(flows) == |set i | 0 <= i < |flows| && Change(flows[i]).Some?|
  {
    hide Change;
    var places := set i | 0 <= i < |flows| && Change(flows[i]).Some?;
    if flows == [] {
      assert places == {};
    } else {
      var init, last := flows[..|flows| - 1], |flows| - 1;
      ChangesAreCounted(init);
      var before := set i | 0 <= i < |init| && Change(init[i]).Some?;
      assert places == if Change(flows[last]).Some? then before + {last} else before;
    }
  }

  class CvdStore {
    var rows: Table

    constructor (rows: Table)
      ensures this.rows == rows
    {
      this.rows := rows;
    }

    /** previousCVD: scans for the latest earlier row. */
    method PreviousCVD(s: Series, before: int) returns (value: real)
      ensures value == Previous(rows, s, before)
    {
      var pending := SlotsBefore(rows, s, before);
      if pending == {} {
        return 0.0;
      }
      ghost var all := pending;
      var latest :| latest in pending;
      pending := pending - {latest};
      while pending != {}
        invariant pending <= all && latest in all
        invariant forall u :: u in all && u !in pending ==> u.at <= latest.at
        decreases pending
      {
        var u :| u in pending;
        if u.at > latest.at {
          latest := u;
        }
        pending := pending - {u};
      }
      LatestUnique(all, latest);
      return ValueAt(rows, latest);
    }

    method UpsertCVDFromTakerFlows(flows: seq<Flow>) returns (count: nat)
      modifies this
      ensures rows == AppliedAll(old(rows), flows)
      ensures count == Changes(flows)
    {
      count := 0;
      var i := 0;
      while i < |flows|
        invariant 0 <= i <= |flows| && count == Changes(flows[..i])
        invariant rows == AppliedAll(old(rows), flows[..i])
      {
        assert flows[..i + 1][..i] == flows[..i];
        var flow := flows[i];
        var change := Change(flow);
        if change.Some? {
          var previous := PreviousCVD(flow.series, flow.at);
          rows := rows[Slot(flow.series, flow.at) := Row(Some(previous + change.value), change)];
          count := count + 1;
        }
        i := i + 1;
      }
      assert flows[..i] == flows;
    }
  }
}
