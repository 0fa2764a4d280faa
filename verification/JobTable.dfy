/**
  The tables derivative_collection_jobs and failed_collection_jobs, and the
  statements that internal/scheduler/repository.go and recovery.go run on them.

  Every transaction is one atomic step.  Each step is first a function on table
  values; the class `JobStore` performs the same step in place.
 */
module JobTable {
  import opened Wrappers

  datatype Status = Pending | Running | Succeeded | Failed | DeadLetter | Cancelled

  /** A row of derivative_collection_jobs (the columns that decide its life). */
  datatype Job = Job(
    key: string,
    status: Status,
    priority: int,
    scheduledAt: int,
    startedAt: Option<int>,
    finishedAt: Option<int>,
    nextRetryAt: Option<int>,
    retryCount: nat,
    maxRetry: nat,
    error: Option<string>)

  /** What the planner and the backfill hand to InsertJobs. */
  datatype NewJob = NewJob(key: string, priority: int, scheduledAt: int, retryCount: nat, maxRetry: nat)

  /** A row of failed_collection_jobs, keyed by job_id. */
  datatype FailedJob = FailedJob(key: string, retryCount: nat, error: string)

  datatype Table = Table(jobs: map<nat, Job>, failed: map<nat, FailedJob>, nextId: nat)

  const RECOVERY_MESSAGE := "interrupted during restart recovery"

  // ---------------------------------------------------------------- InsertJobs

  predicate KeyTaken(t: Table, key: string) {
    exists id :: id in t.jobs && t.jobs[id].key == key
  }

  function FreshRow(j: NewJob): Job {
    Job(j.key, Pending, j.priority, j.scheduledAt, None, None, None, j.retryCount, j.maxRetry, None)
  }

  /** One INSERT ... ON CONFLICT (idempotency_key) DO NOTHING; the id sequence moves either way. */
  function InsertOne(t: Table, j: NewJob): Table {
    if KeyTaken(t, j.key) then t.(nextId := t.nextId + 1)
    else t.(jobs := t.jobs[t.nextId := FreshRow(j)], nextId := t.nextId + 1)
  }

  /** The whole INSERT transaction. */
  function InsertAll(t: Table, js: seq<NewJob>): Table {
    if js == [] then t else InsertOne(InsertAll(t, js[..|js| - 1]), js[|js| - 1])
  }

  /** Ids come from a sequence and the idempotency key carries a unique index. */
  ghost predicate Indexed(t: Table) {
    && (forall id :: id in t.jobs ==> id < t.nextId)
    && (forall i, j :: i in t.jobs && j in t.jobs && t.jobs[i].key == t.jobs[j].key ==> i == j)
  }

  lemma IndexedIds(t: Table)
    requires Indexed(t)
    ensures t.nextId !in t.jobs
  {
  }

  /** The first job of the batch that carries `key`. */
  ghost predicate FirstWithKey(js: seq<NewJob>, n: nat, key: string)
  {
    n < |js| && js[n].key == key && forall m :: 0 <= m < n ==> js[m].key != key
  }

  lemma InsertOneKeepsIndex(t: Table, j: NewJob)
    requires Indexed(t)
    ensures Indexed(InsertOne(t, j))
  {
    hide FreshRow;
    FreshRowKey(j);
  }

  lemma FreshRowKey(j: NewJob)
    ensures FreshRow(j).key == j.key
  {
  }

  /** One insert: stored rows stay, and the key is taken afterwards. */
  lemma InsertOneKeepsRows(t: Table, j: NewJob)
    requires Indexed(t)
    ensures var t' := InsertOne(t, j);
            && t'.failed == t.failed && t'.nextId == t.nextId + 1
            && (forall id :: id in t.jobs ==> id in t'.jobs && t'.jobs[id] == t.jobs[id])
            && (forall id :: id in t'.jobs && id !in t.jobs ==> id == t.nextId && t'.jobs[id] == FreshRow(j))
  {
    hide FreshRow;
  }

  lemma InsertOneTakesKey(t: Table, j: NewJob, key: string)
    requires Indexed(t)
    ensures KeyTaken(InsertOne(t, j), key) <==> KeyTaken(t, key) || key == j.key
  {
    hide InsertOne, Indexed, FreshRow;
    var t' := InsertOne(t, j);
    InsertOneKeepsRows(t, j);
    FreshRowKey(j);
    if KeyTaken(t, key) {
      var id :| id in t.jobs && t.jobs[id].key == key;
      assert id in t'.jobs && t'.jobs[id].key == key;
    }
    if key == j.key && !KeyTaken(t, key) { NewRowIsStored(t, j); assert t'.jobs[t.nextId].key == key; }
    if KeyTaken(t', key) && key != j.key {
      var id :| id in t'.jobs && t'.jobs[id].key == key;
      assert id in t.jobs && t.jobs[id].key == key;
    }
  }

  lemma NewRowIsStored(t: Table, j: NewJob)
    requires !KeyTaken(t, j.key)
    ensures t.nextId in InsertOne(t, j).jobs && InsertOne(t, j).jobs[t.nextId] == FreshRow(j)
  {
  }

  /** Rows already stored stay as they are, the index holds, and only keys of the batch are added. */
  lemma {:induction false} InsertKeepsRows(t: Table, js: seq<NewJob>)
    requires Indexed(t)
    ensures var t' := InsertAll(t, js);
            && Indexed(t')
            && t'.failed == t.failed
            && t.nextId <= t'.nextId
            && (forall id :: id in t.jobs ==> id in t'.jobs && t'.jobs[id] == t.jobs[id])
            && (forall id :: id in t'.jobs && id !in t.jobs ==> t.nextId <= id)
            && (forall key :: KeyTaken(t', key) <==> KeyTaken(t, key) || exists n :: 0 <= n < |js| && js[n].key == key)
  {
    hide InsertOne, KeyTaken, Indexed, FreshRow;
    if js != [] {
      var init, last := js[..|js| - 1], js[|js| - 1];
      InsertKeepsRows(t, init);
      var mid := InsertAll(t, init);
      InsertOneKeepsIndex(mid, last);
      InsertOneKeepsRows(mid, last);
      forall key
        ensures KeyTaken(InsertOne(mid, last), key) <==> KeyTaken(t, key) || exists n :: 0 <= n < |js| && js[n].key == key
      {
        InsertOneTakesKey(mid, last, key);
        LastKey(init, last, js, key);
      }
    }
  }

  lemma LastKey(init: seq<NewJob>, last: NewJob, js: seq<NewJob>, key: string)
    requires js == init + [last]
    ensures (exists n :: 0 <= n < |js| && js[n].key == key) <==> last.key == key || exists n :: 0 <= n < |init| && init[n].key == key
  {
    assert js[|init|] == last && forall n :: 0 <= n < |init| ==> init[n] == js[n];
  }

  /** On a key clash inside a batch the earlier job is the one stored. */
  lemma {:induction false} EarlierJobWins(t: Table, js: seq<NewJob>, n: nat, key: string)
    requires Indexed(t) && !KeyTaken(t, key) && FirstWithKey(js, n, key)
    ensures exists id :: id in InsertAll(t, js).jobs && InsertAll(t, js).jobs[id] == FreshRow(js[n])
  {
    hide InsertOne, KeyTaken, FreshRow, Indexed;
    var init, last := js[..|js| - 1], js[|js| - 1];
    InsertKeepsRows(t, init);
    var mid := InsertAll(t, init);
    InsertOneKeepsRows(mid, last);
    assert InsertAll(t, js) == InsertOne(mid, last);
    if n < |init| {
      EarlierJobWins(t, init, n, key);
      var id :| id in mid.jobs && mid.jobs[id] == FreshRow(init[n]);
      assert id in InsertAll(t, js).jobs && InsertAll(t, js).jobs[id] == FreshRow(js[n]);
    } else {
      assert forall m :: 0 <= m < |init| ==> init[m] == js[m];
      NewRowIsStored(mid, last);
    }
  }

  /** A batch whose keys are all stored already adds nothing: planning the same bucket twice is harmless. */
  lemma {:induction false} ReinsertAddsNothing(t: Table, js: seq<NewJob>)
    requires Indexed(t)
    requires forall n :: 0 <= n < |js| ==> KeyTaken(t, js[n].key)
    ensures InsertAll(t, js).jobs == t.jobs
  {
    if js != [] {
      var init := js[..|js| - 1];
      assert forall n :: 0 <= n < |init| ==> init[n] == js[n];
      ReinsertAddsNothing(t, init);
      InsertKeepsRows(t, init);
      assert KeyTaken(t, js[|js| - 1].key);
    }
  }

  // ---------------------------------------------------------- ClaimPendingJobs

  /** Rows the claim query may lock: pending, due, and not locked by another transaction. */
  function Claimable(t: Table, now: int, locked: set<nat>): set<nat> {
    set id | id in t.jobs && t.jobs[id].status == Pending && t.jobs[id].scheduledAt <= now && id !in locked
  }

  /** ORDER BY priority, scheduled_at, id. */
  predicate Before(t: Table, a: nat, b: nat)
    requires a in t.jobs && b in t.jobs
  {
    var x, y := t.jobs[a], t.jobs[b];
    || x.priority < y.priority
    || (x.priority == y.priority && x.scheduledAt < y.scheduledAt)
    || (x.priority == y.priority && x.scheduledAt == y.scheduledAt && a < b)
  }

  /** `batch` is what LIMIT leaves of the claimable rows. */
  ghost predicate IsBatch(t: Table, now: int, limit: nat, locked: set<nat>, batch: set<nat>) {
    var open := Claimable(t, now, locked);
    && batch <= open
    && |batch| == (if limit < |open| then limit else |open|)
    && forall a, b :: a in batch && b in open && b !in batch ==> Before(t, a, b)
  }

  lemma BatchRows(t: Table, now: int, limit: nat, locked: set<nat>, batch: set<nat>)
    requires IsBatch(t, now, limit, locked, batch)
    ensures batch <= t.jobs.Keys
  {
  }

  /** The order is total, so the query has exactly one answer. */
  lemma BatchIsUnique(t: Table, now: int, limit: nat, locked: set<nat>, b1: set<nat>, b2: set<nat>)
    requires IsBatch(t, now, limit, locked, b1) && IsBatch(t, now, limit, locked, b2)
    ensures b1 == b2
  {
    if b1 != b2 {
      if b1 <= b2 { SubsetOfSameSize(b1, b2); }
      if b2 <= b1 { SubsetOfSameSize(b2, b1); }
      var a :| a in b1 && a !in b2;
      var b :| b in b2 && b !in b1;
      assert false;
    }
  }

  lemma SubsetOfSameSize(a: set<nat>, b: set<nat>)
    requires a <= b && |a| == |b|
    ensures a == b
  {
    assert b == a + (b - a);
    assert |b| == |a| + |b - a|;
  }

  function Ids(ids: seq<nat>): set<nat> {
    set id | id in ids
  }

  ghost predicate Distinct(ids: seq<nat>) {
    forall i, j :: 0 <= i < j < |ids| ==> ids[i] != ids[j]
  }

  function ClaimRow(j: Job, now: int): Job {
    j.(status := Running, startedAt := Some(now))
  }

  function Claimed(t: Table, batch: set<nat>, now: int): Table {
    t.(jobs := map id | id in t.jobs :: if id in batch then ClaimRow(t.jobs[id], now) else t.jobs[id])
  }

  // ---------------------------------------------------- resolutions, recovery

  /** `UPDATE ... WHERE id = $1`: no row, no effect. */
  function UpdateRow(t: Table, id: nat, row: Job): Table {
    if id in t.jobs then t.(jobs := t.jobs[id := row]) else t
  }

  function SucceededRow(j: Job, now: int): Job {
    j.(status := Succeeded, finishedAt := Some(now), nextRetryAt := None, error := None)
  }

  function RetriedRow(j: Job, now: int, nextRun: int, message: string): Job {
    j.(status := Pending, scheduledAt := nextRun, nextRetryAt := Some(nextRun), finishedAt := Some(now),
       retryCount := j.retryCount + 1, error := Some(message))
  }

  function FailedRow(j: Job, now: int, message: string, deadLetter: bool): Job {
    j.(status := if deadLetter then DeadLetter else Failed, finishedAt := Some(now),
       retryCount := j.retryCount + 1, error := Some(message))
  }

  function RecoveredRow(j: Job, now: int): Job {
    j.(status := Pending, scheduledAt := if now < j.scheduledAt then now else j.scheduledAt,
       retryCount := j.retryCount + 1, error := Some(RECOVERY_MESSAGE), nextRetryAt := Some(now))
  }

  function MarkedSucceeded(t: Table, id: nat, now: int): Table {
    if id in t.jobs then UpdateRow(t, id, SucceededRow(t.jobs[id], now)) else t
  }

  function RetriedLater(t: Table, id: nat, now: int, nextRun: int, message: string): Table {
    if id in t.jobs then UpdateRow(t, id, RetriedRow(t.jobs[id], now, nextRun, message)) else t
  }

  /** failed_collection_jobs has unique indexes on job_id and on idempotency_key. */
  predicate FailedConflict(t: Table, id: nat, key: string) {
    id in t.failed || exists other :: other in t.failed && t.failed[other].key == key
  }

  /** `job` is the row as the worker saw it when it claimed it; `id` is its id. */
  function MarkedFailed(t: Table, id: nat, job: Job, now: int, message: string, deadLetter: bool): Table {
    if id !in t.jobs then t
    else
      var t1 := UpdateRow(t, id, FailedRow(t.jobs[id], now, message, deadLetter));
      if !deadLetter || FailedConflict(t, id, job.key) then t1
      else t1.(failed := t1.failed[id := FailedJob(job.key, job.retryCount + 1, message)])
  }

  /** Rows that RecoverInterrupted resets. */
  function Stale(t: Table, cutoff: int): set<nat> {
    set id | id in t.jobs && t.jobs[id].status == Running && t.jobs[id].startedAt.Some? && t.jobs[id].startedAt.value < cutoff
  }

  function Recovered(t: Table, cutoff: int, now: int): Table {
    t.(jobs := map id | id in t.jobs :: if id in Stale(t, cutoff) then RecoveredRow(t.jobs[id], now) else t.jobs[id])
  }

  /** An inserted row can be claimed from its schedule on, at its own priority. */
  lemma InsertedIsClaimableIff(t: Table, j: NewJob, at: int, locked: set<nat>)
    requires Indexed(t) && !KeyTaken(t, j.key)
    ensures var t' := InsertOne(t, j);
            && (t.nextId in Claimable(t', at, locked) <==> j.scheduledAt <= at && t.nextId !in locked)
            && Claimable(t', at, locked) - {t.nextId} == Claimable(t, at, locked)
            && t'.jobs[t.nextId].priority == j.priority && t'.jobs[t.nextId].maxRetry == j.maxRetry && t'.jobs[t.nextId].retryCount == j.retryCount
  {
    IndexedIds(t);
  }

  /** A retried row can be claimed from its next run on, and not before; other rows as they could. */
  lemma RetriedIsClaimableIff(t: Table, id: nat, now: int, nextRun: int, message: string, at: int, locked: set<nat>)
    requires id in t.jobs
    ensures var open := Claimable(RetriedLater(t, id, now, nextRun, message), at, locked);
            && (id in open <==> nextRun <= at && id !in locked)
            && open - {id} == Claimable(t, at, locked) - {id}
  {
  }

  /** A reset row can be claimed at once. */
  lemma RecoveredIsClaimableIff(t: Table, cutoff: int, now: int, id: nat, at: int, locked: set<nat>)
    requires id in Stale(t, cutoff) && now <= at
    ensures id in Claimable(Recovered(t, cutoff, now), at, locked) <==> id !in locked
  {
  }

  /** With room for all, the claim takes every claimable row. */
  lemma RoomyBatch(t: Table, now: int, limit: nat, locked: set<nat>, batch: set<nat>)
    requires IsBatch(t, now, limit, locked, batch) && |Claimable(t, now, locked)| <= limit
    ensures batch == Claimable(t, now, locked)
  {
    SubsetOfSameSize(batch, Claimable(t, now, locked));
  }

  // ------------------------------------------------------------- the in-place store

  class JobStore {
    var jobs: map<nat, Job>
    var failed: map<nat, FailedJob>
    var nextId: nat

    function Contents(): Table
      reads this
    {
      Table(jobs, failed, nextId)
    }

    constructor ()
      ensures Contents() == Table(map[], map[], 0)
    {
      jobs, failed, nextId := map[], map[], 0;
    }

    /** InsertJobs: returns how many rows the batch added. */
    method InsertJobs(batch: seq<NewJob>) returns (inserted: nat)
      requires Indexed(Contents())
      modifies this
      ensures Contents() == InsertAll(old(Contents()), batch)
      ensures Indexed(Contents())
      ensures inserted == |jobs| - |old(jobs)|
    {
      hide Indexed, KeyTaken, FreshRow;
      inserted := 0;
      var i := 0;
      while i < |batch|
        invariant 0 <= i <= |batch|
        invariant Contents() == InsertAll(old(Contents()), batch[..i])
        invariant Indexed(Contents())
        invariant inserted == |jobs| - |old(jobs)|
      {
        assert batch[..i + 1][..i] == batch[..i];
        InsertOneKeepsIndex(Contents(), batch[i]);
        IndexedIds(Contents());
        if !KeyTaken(Contents(), batch[i].key) {
          assert nextId !in jobs;
          jobs := jobs[nextId := FreshRow(batch[i])];
          inserted := inserted + 1;
        }
        nextId := nextId + 1;
        i := i + 1;
      }
      assert batch[..i] == batch;
    }

    /**
      ClaimPendingJobs: `locked` are rows held by concurrent transactions (SKIP LOCKED).
      Returns the ids claimed, in query order.
     */
    method ClaimPendingJobs(limit: int, now: int, locked: set<nat>) returns (r: Result<seq<nat>, string>)
      modifies this
      ensures limit < 1 <==> r.Err?
      ensures r.Err? ==> Contents() == old(Contents())
      ensures r.Ok? ==>
        var batch := Ids(r.value);
        && Distinct(r.value)
        && IsBatch(old(Contents()), now, limit, locked, batch)
        && Contents() == Claimed(old(Contents()), batch, now)
    {
      if limit < 1 {
        return Err("limit must be greater than 0");
      }
      var picked := SelectBatch(Contents(), now, limit, locked);
      var batch := Ids(picked);
      jobs := map id | id in jobs :: if id in batch then ClaimRow(jobs[id], now) else jobs[id];
      return Ok(picked);
    }

    /** updateJobTerminal with status succeeded. */
    method MarkJobSucceeded(id: nat, now: int)
      modifies this
      ensures Contents() == MarkedSucceeded(old(Contents()), id, now)
    {
      if id in jobs {
        jobs := jobs[id := SucceededRow(jobs[id], now)];
      }
    }

    method MarkJobFailedDetailed(id: nat, job: Job, now: int, message: string, deadLetter: bool)
      modifies this
      ensures Contents() == MarkedFailed(old(Contents()), id, job, now, message, deadLetter)
    {
      if id in jobs {
        var conflict := FailedConflict(Contents(), id, job.key);
        jobs := jobs[id := FailedRow(jobs[id], now, message, deadLetter)];
        if deadLetter && !conflict {
          failed := failed[id := FailedJob(job.key, job.retryCount + 1, message)];
        }
      }
    }

    method RetryJobLater(id: nat, now: int, nextRun: int, message: string)
      modifies this
      ensures Contents() == RetriedLater(old(Contents()), id, now, nextRun, message)
    {
      if id in jobs {
        jobs := jobs[id := RetriedRow(jobs[id], now, nextRun, message)];
      }
    }

    /** RecoverInterrupted: returns how many rows it reset. */
    method RecoverInterrupted(cutoff: int, now: int) returns (reset: nat)
      modifies this
      ensures Contents() == Recovered(old(Contents()), cutoff, now)
      ensures reset == |Stale(old(Contents()), cutoff)|
    {
      var stale := Stale(Contents(), cutoff);
      reset := |stale|;
      jobs := map id | id in jobs :: if id in stale then RecoveredRow(jobs[id], now) else jobs[id];
    }
  }

  /** The `selected` subquery: repeatedly the first remaining row, up to the limit. */
  method SelectBatch(t: Table, now: int, limit: nat, locked: set<nat>) returns (picked: seq<nat>)
    ensures Distinct(picked)
    ensures IsBatch(t, now, limit, locked, Ids(picked))
  {
    hide Before;
    var open := Claimable(t, now, locked);
    var rest := open;
    picked := [];
    while rest != {} && |picked| < limit
      invariant rest <= open && Ids(picked) == open - rest
      invariant |picked| <= limit && Distinct(picked)
      invariant forall a, b :: a in Ids(picked) && b in rest ==> Before(t, a, b)
    {
      var first := Earliest(t, rest);
      AppendId(picked, first);
      picked := picked + [first];
      rest := rest - {first};
    }
    IdsCount(picked);
    assert |open| == |Ids(picked)| + |rest| by { assert open == Ids(picked) + rest; }
  }

  lemma AppendId(ids: seq<nat>, id: nat)
    requires Distinct(ids) && id !in Ids(ids)
    ensures Distinct(ids + [id]) && Ids(ids + [id]) == Ids(ids) + {id}
  {
    assert forall i :: 0 <= i < |ids| ==> ids[i] in Ids(ids);
  }

  lemma {:induction false} IdsCount(ids: seq<nat>)
    requires Distinct(ids)
    ensures |Ids(ids)| == |ids|
  {
    if ids != [] {
      var init, last := ids[..|ids| - 1], ids[|ids| - 1];
      assert last !in Ids(init);
      AppendId(init, last);
      assert init + [last] == ids;
      IdsCount(init);
    }
  }

  /** The row the query's ORDER BY puts first. */
  method Earliest(t: Table, ids: set<nat>) returns (first: nat)
    requires ids != {} && ids <= t.jobs.Keys
    ensures first in ids
    ensures forall b :: b in ids && b != first ==> Before(t, first, b)
  {
    first :| first in ids;
    var rest := ids - {first};
    while rest != {}
      invariant first in ids && rest <= ids && first !in rest
      invariant forall b :: b in ids && b !in rest && b != first ==> Before(t, first, b)
      decreases rest
    {
      var next :| next in rest;
      if Before(t, next, first) {
        first := next;
      }
      rest := rest - {next};
    }
  }
}
