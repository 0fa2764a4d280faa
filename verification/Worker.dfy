/**
  One pass of the collector's worker (internal/scheduler/worker.go): claim a batch,
  then resolve its jobs one by one.  The breaker, the limiter, the executor, the
  clock and store failures are inputs.
 */
module Worker {
  import opened Wrappers
  import opened JobTable
  import opened JobProtocol

  /** What happened to one job before it was reported. */
  datatype Attempt =
    | Refused                    // circuit open, or the limiter gave up
    | Executed                   // the executor succeeded
    | Errored(recoverable: bool) // the executor failed

  /** One round of the loop: the outcome, when it is reported, and whether the store took the report. */
  datatype Round = Round(attempt: Attempt, now: int, nextRun: int, message: string, stored: bool)

  /** process: a refusal counts as a recoverable failure. */
  function Resolved(t: Table, id: nat, job: Job, r: Round): Table {
    match r.attempt
    case Executed => MarkedSucceeded(t, id, r.now)
    case Refused => FailureStep(t, id, job, true, r.now, r.nextRun, r.message)
    case Errored(recoverable) => FailureStep(t, id, job, recoverable, r.now, r.nextRun, r.message)
  }

  /** The table after the rounds for `ids`, each worker decision taken on the claimed row in `view`. */
  function ResolvedAll(t: Table, ids: seq<nat>, view: map<nat, Job>, round: nat -> Round): Table {
    if ids == [] then t
    else
      var t' := ResolvedAll(t, ids[..|ids| - 1], view, round);
      var id := ids[|ids| - 1];
      if id in view then Resolved(t', id, view[id], round(|ids| - 1)) else t'
  }

  /** A job that the breaker or the limiter turned away is not lost while it has a retry left, and neither is one that failed recoverably. */
  lemma TurnedAwayIsRetried(t: Table, id: nat, r: Round)
    requires id in t.jobs && t.jobs[id].retryCount + 1 < t.jobs[id].maxRetry && r.attempt in {Refused, Errored(true)}
    ensures var j := Resolved(t, id, t.jobs[id], r).jobs[id];
            j.status == Pending && j.scheduledAt == r.nextRun && j.retryCount == t.jobs[id].retryCount + 1
    ensures Resolved(t, id, t.jobs[id], r).failed == t.failed
  {
  }

  /** The outcome decides the row's status: success, retry, or dead letter on the last try or an unrecoverable failure. */
  lemma OutcomeDecides(t: Table, id: nat, r: Round)
    requires id in t.jobs
    ensures var j, j' := t.jobs[id], Resolved(t, id, t.jobs[id], r).jobs[id];
            && (j'.status == Succeeded <==> r.attempt == Executed)
            && (j'.status == DeadLetter <==> r.attempt == Errored(false) || (r.attempt != Executed && j.maxRetry <= j.retryCount + 1))
            && j'.finishedAt == Some(r.now) && (j'.error == if r.attempt == Executed then None else Some(r.message))
  {
  }

  /** Resolving some rows leaves every other row alone. */
  lemma {:induction false} ResolvedAllFrame(t: Table, ids: seq<nat>, view: map<nat, Job>, round: nat -> Round, id: nat)
    requires id !in ids
    ensures id in t.jobs <==> id in ResolvedAll(t, ids, view, round).jobs
    ensures id in t.jobs ==> ResolvedAll(t, ids, view, round).jobs[id] == t.jobs[id]
  {
    if ids != [] {
      assert ids[|ids| - 1] in ids;
      ResolvedAllFrame(t, ids[..|ids| - 1], view, round, id);
    }
  }

  /**
    RunOnce: returns the claimed ids in order and how many were reported.  It stops at
    the first report the store refuses; the rows after that stay claimed, as running.
   */
  method RunOnce(store: JobStore, batchSize: int, now: int, locked: set<nat>, round: nat -> Round)
    returns (ids: seq<nat>, processed: nat)
    modifies store
    ensures var limit := if batchSize >= 1 then batchSize else 10;
            var batch := Ids(ids);
            var claimed := Claimed(old(store.Contents()), batch, now);
            && Distinct(ids)
            && IsBatch(old(store.Contents()), now, limit, locked, batch)
            && processed <= |ids|
            && store.Contents() == ResolvedAll(claimed, ids[..processed], claimed.jobs, round)
            && (forall k :: 0 <= k < processed ==> round(k).stored)
            && (processed < |ids| ==> !round(processed).stored)
            && (forall k :: processed <= k < |ids| ==>
                  ids[k] in old(store.jobs) && ids[k] in store.jobs && store.jobs[ids[k]] == ClaimRow(old(store.jobs)[ids[k]], now))
  {
    hide IsBatch, MarkedSucceeded, FailureStep, ClaimRow;
    var limit := if batchSize <= 0 then 10 else batchSize;
    var r := store.ClaimPendingJobs(limit, now, locked);
    ids := r.value;
    ghost var batch := Ids(ids);
    ghost var claimed := store.Contents();
    BatchRows(old(store.Contents()), now, limit, locked, batch);
    var view := store.jobs;
    processed := 0;
    while processed < |ids|
      invariant 0 <= processed <= |ids|
      invariant store.Contents() == ResolvedAll(claimed, ids[..processed], view, round)
      invariant forall k :: 0 <= k < processed ==> round(k).stored
    {
      if !round(processed).stored {
        break;
      }
      var id, now', w := ids[processed], round(processed).now, round(processed);
      assert id in batch;
      var job := view[id];
      match w.attempt {
        case Executed => store.MarkJobSucceeded(id, now');
        case Refused => Report(store, id, job, true, w);
        case Errored(recoverable) => Report(store, id, job, recoverable, w);
      }
      assert ids[..processed + 1][..processed] == ids[..processed];
      processed := processed + 1;
    }
    forall k | processed <= k < |ids|
      ensures ids[k] in old(store.jobs) && ids[k] in store.jobs && store.jobs[ids[k]] == ClaimRow(old(store.jobs)[ids[k]], now)
    {
      assert ids[k] in batch;
      ResolvedAllFrame(claimed, ids[..processed], view, round, ids[k]);
    }
  }

  /** retryOrDeadLetter. */
  method Report(store: JobStore, id: nat, job: Job, recoverable: bool, w: Round)
    modifies store
    ensures store.Contents() == FailureStep(old(store.Contents()), id, job, recoverable, w.now, w.nextRun, w.message)
  {
    if !recoverable || job.retryCount + 1 >= job.maxRetry {
      store.MarkJobFailedDetailed(id, job, w.now, w.message, true);
    } else {
      store.RetryJobLater(id, w.now, w.nextRun, w.message);
    }
  }

  // ------------------------------------------------- a pass is a run of the protocol

  function ReportEvent(ref: ClaimRef, r: Round): Event {
    match r.attempt
    case Executed => Succeed(ref)
    case Refused => Fail(ref, true, r.nextRun, r.message)
    case Errored(recoverable) => Fail(ref, recoverable, r.nextRun, r.message)
  }

  /** The protocol events of the reporting loop: for each job, time passes and the report arrives. */
  function ReportEvents(batch: nat, ids: seq<nat>, round: nat -> Round): seq<Event> {
    if ids == [] then []
    else ReportEvents(batch, ids[..|ids| - 1], round)
         + [Tick(round(|ids| - 1).now), ReportEvent(ClaimRef(batch, ids[|ids| - 1]), round(|ids| - 1))]
  }

  lemma TwoEvents(q: Queue, e: Event, f: Event, timeout: nat)
    ensures RunTo(q, [e, f]) == Apply(Apply(q, e), f)
    ensures EnabledRun(q, [e, f], timeout) <==> Enabled(q, e, timeout) && Enabled(Apply(q, e), f, timeout)
    ensures ValidRun(q, [e, f], timeout) <==>
            Enabled(q, e, timeout) && Timely(q, e, timeout) && Enabled(Apply(q, e), f, timeout) && Timely(Apply(q, e), f, timeout)
  {
    hide Apply, Enabled, Timely;
    assert [e, f][1..] == [f] && [f][1..] == [];
    var q' := Apply(q, e);
    OneEvent(q', f, timeout);
    assert [e, f] == [e] + [f];
  }

  /** One round: the report does to the table what the worker does, and gives up the claim. */
  lemma ReportStep(q: Queue, ref: ClaimRef, w: Round)
    requires ref in q.claims
    ensures var q' := Apply(Apply(q, Tick(w.now)), ReportEvent(ref, w));
            q'.table == Resolved(q.table, ref.id, q.claims[ref], w) && q'.now == w.now && q'.claims == q.claims - {ref}
  {
    hide MarkedSucceeded, MarkedFailed, RetriedLater;
  }

  /** The worker holds these claims, and saw the rows as in `view`. */
  ghost predicate Holds(q: Queue, batch: nat, ids: seq<nat>, view: map<nat, Job>) {
    forall k :: 0 <= k < |ids| ==>
      ids[k] in view && ClaimRef(batch, ids[k]) in q.claims && q.claims[ClaimRef(batch, ids[k])] == view[ids[k]]
  }

  /** What the loop leaves in the table is what those events leave in the queue. */
  lemma {:induction false} ReportsAreProtocolEvents(q: Queue, batch: nat, ids: seq<nat>, view: map<nat, Job>, round: nat -> Round)
    requires Distinct(ids) && Holds(q, batch, ids, view)
    ensures var q' := RunTo(q, ReportEvents(batch, ids, round));
            && q'.table == ResolvedAll(q.table, ids, view, round)
            && q'.now == (if ids == [] then q.now else round(|ids| - 1).now)
            && (forall r :: r in q.claims && !(r.batch == batch && r.id in ids) ==> r in q'.claims && q'.claims[r] == q.claims[r])
  {
    hide Apply, Resolved, ReportEvent;
    if ids != [] {
      var init, last, w := ids[..|ids| - 1], ids[|ids| - 1], round(|ids| - 1);
      forall k | 0 <= k < |init| ensures init[k] == ids[k] {}
      ReportsAreProtocolEvents(q, batch, init, view, round);
      var q1, ref := RunTo(q, ReportEvents(batch, init, round)), ClaimRef(batch, last);
      assert ids[|ids| - 1] == last && last !in init;
      RunsAppend(q, ReportEvents(batch, init, round), [Tick(w.now), ReportEvent(ref, w)], 0);
      TwoEvents(q1, Tick(w.now), ReportEvent(ref, w), 0);
      ReportStep(q1, ref, w);
    }
  }

  /** The clock does not step back from one report to the next. */
  predicate Steady(from: int, n: nat, round: nat -> Round) {
    && (forall k :: 0 <= k < n ==> from <= round(k).now)
    && (forall j, k :: 0 <= j < k < n ==> round(j).now <= round(k).now)
  }

  /** Every report reaches the table within the timeout of the claim at `start`. */
  predicate InTime(start: int, timeout: nat, n: nat, round: nat -> Round) {
    forall k :: 0 <= k < n ==> round(k).now <= start + timeout
  }

  /** The events of the loop can happen, and within the timeout they are timely. */
  lemma {:induction false} ReportsAreEnabled(q: Queue, batch: nat, ids: seq<nat>, view: map<nat, Job>, round: nat -> Round, start: int, timeout: nat)
    requires Distinct(ids) && Holds(q, batch, ids, view) && Steady(q.now, |ids|, round)
    requires forall k :: 0 <= k < |ids| ==> view[ids[k]].startedAt == Some(start)
    ensures EnabledRun(q, ReportEvents(batch, ids, round), timeout)
    ensures InTime(start, timeout, |ids|, round) ==> ValidRun(q, ReportEvents(batch, ids, round), timeout)
  {
    hide Apply, ReportEvent, ResolvedAll;
    if ids != [] {
      var init, last, w := ids[..|ids| - 1], ids[|ids| - 1], round(|ids| - 1);
      forall k | 0 <= k < |init| ensures init[k] == ids[k] {}
      ReportsAreEnabled(q, batch, init, view, round, start, timeout);
      ReportsAreProtocolEvents(q, batch, init, view, round);
      var q1, ref := RunTo(q, ReportEvents(batch, init, round)), ClaimRef(batch, last);
      assert ids[|ids| - 1] == last && last !in init;
      RunsAppend(q, ReportEvents(batch, init, round), [Tick(w.now), ReportEvent(ref, w)], timeout);
      TwoEvents(q1, Tick(w.now), ReportEvent(ref, w), timeout);
      ReportIsEnabled(q1, ref, w, start, timeout);
    }
  }

  lemma ReportIsEnabled(q: Queue, ref: ClaimRef, w: Round, start: int, timeout: nat)
    requires ref in q.claims && q.claims[ref].startedAt == Some(start) && q.now <= w.now
    ensures var q' := Apply(q, Tick(w.now));
            && Enabled(q, Tick(w.now), timeout) && Timely(q, Tick(w.now), timeout) && Enabled(q', ReportEvent(ref, w), timeout)
            && (w.now <= start + timeout ==> Timely(q', ReportEvent(ref, w), timeout))
  {
  }

  /** The events of one RunOnce that reported the first `processed` of its jobs. */
  function PassEvents(q: Queue, limit: nat, locked: set<nat>, ids: seq<nat>, processed: nat, round: nat -> Round): seq<Event>
    requires processed <= |ids|
  {
    [Claim(limit, locked, Ids(ids))] + ReportEvents(q.nextBatch, ids[..processed], round)
  }

  /**
    A pass of the worker is a run of the protocol: from any queue, what RunOnce leaves in the
    table is what its claim and its reports leave there, these can happen in any queue, and
    when all reports come within the timeout the run is one the guarantees speak about.
   */
  lemma PassIsProtocolRun(q: Queue, limit: nat, locked: set<nat>, ids: seq<nat>, processed: nat, round: nat -> Round, timeout: nat)
    requires Distinct(ids) && processed <= |ids| && IsBatch(q.table, q.now, limit, locked, Ids(ids)) && Steady(q.now, processed, round)
    ensures var es, claimed := PassEvents(q, limit, locked, ids, processed, round), Claimed(q.table, Ids(ids), q.now);
            && RunTo(q, es).table == ResolvedAll(claimed, ids[..processed], claimed.jobs, round)
            && EnabledRun(q, es, timeout)
            && (InTime(q.now, timeout, processed, round) ==> ValidRun(q, es, timeout))
  {
    hide DoClaim, IsBatch, ResolvedAll, ReportEvents;
    var batch, reported := Ids(ids), ids[..processed];
    var e, q1, view := Claim(limit, locked, batch), DoClaim(q, batch), Claimed(q.table, batch, q.now).jobs;
    ClaimGivesHolds(q, limit, locked, ids, processed);
    ReportsAreProtocolEvents(q1, q.nextBatch, reported, view, round);
    ReportsAreEnabled(q1, q.nextBatch, reported, view, round, q.now, timeout);
    assert ([e] + ReportEvents(q.nextBatch, reported, round))[1..] == ReportEvents(q.nextBatch, reported, round);
  }

  lemma ClaimGivesHolds(q: Queue, limit: nat, locked: set<nat>, ids: seq<nat>, processed: nat)
    requires Distinct(ids) && processed <= |ids| && IsBatch(q.table, q.now, limit, locked, Ids(ids))
    ensures var q1, view := DoClaim(q, Ids(ids)), Claimed(q.table, Ids(ids), q.now).jobs;
            && q1.now == q.now && q1.table == Claimed(q.table, Ids(ids), q.now) && Distinct(ids[..processed])
            && Holds(q1, q.nextBatch, ids[..processed], view)
            && (forall k :: 0 <= k < processed ==> view[ids[..processed][k]].startedAt == Some(q.now))
  {
    var q1, reported := DoClaim(q, Ids(ids)), ids[..processed];
    forall k | 0 <= k < processed ensures reported[k] in Ids(ids) && reported[k] in q.table.jobs { assert reported[k] == ids[k]; }
  }
}
