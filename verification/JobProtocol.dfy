/**
  The job queue as a transition system: planners insert rows, workers claim
  batches and resolve them, workers may vanish, and recovery resets stale rows.

  The resolving UPDATEs match on the id alone (repository.go:244, :295, :312), so
  nothing in the statements stops a worker from overwriting a row it lost.  What
  protects it is time: a claim resolved within the recovery timeout cannot have
  been recovered (recovery.go:33-34).
 */
module JobProtocol {
  import opened Wrappers
  import opened JobTable

  /** A worker's hold on a row: the claim transaction that took it, and the row's id. */
  datatype ClaimRef = ClaimRef(batch: nat, id: nat)

  /** Per-row history: how its claims ended. */
  datatype Tally = Tally(base: nat, claims: nat, successes: nat, retries: nat, deadLetters: nat, recoveries: nat)

  /**
    `claims` maps each unresolved claim to the row as the claim query returned it;
    `tally` is history that no step looks at.
   */
  datatype Queue = Queue(
    table: Table,
    now: int,
    claims: map<ClaimRef, Job>,
    nextBatch: nat,
    tally: map<nat, Tally>)

  datatype Event =
    | Tick(now: int)
    | Insert(batch: seq<NewJob>)
    | Claim(limit: nat, locked: set<nat>, chosen: set<nat>)
    | Succeed(ref: ClaimRef)
    | Fail(ref: ClaimRef, recoverable: bool, nextRun: int, message: string)
    | Abandon(ref: ClaimRef)
    | Recover(cutoff: int)

  /** retryOrDeadLetter's decision, taken on the worker's copy of the row. */
  predicate GivesUp(job: Job, recoverable: bool) {
    !recoverable || job.retryCount + 1 >= job.maxRetry
  }

  /** The table after a worker holding `job` under `id` reports a failure. */
  function FailureStep(t: Table, id: nat, job: Job, recoverable: bool, now: int, nextRun: int, message: string): Table {
    if GivesUp(job, recoverable) then MarkedFailed(t, id, job, now, message, true)
    else RetriedLater(t, id, now, nextRun, message)
  }

  // ------------------------------------------------------------------- the steps

  function TallyOf(q: Queue, id: nat): Tally {
    if id in q.tally then q.tally[id] else Tally(0, 0, 0, 0, 0, 0)
  }

  function DoInsert(q: Queue, batch: seq<NewJob>): Queue {
    var t' := InsertAll(q.table, batch);
    q.(table := t',
       tally := map id | id in t'.jobs ::
         if id in q.tally then q.tally[id] else Tally(t'.jobs[id].retryCount, 0, 0, 0, 0, 0))
  }

  function DoClaim(q: Queue, chosen: set<nat>): Queue {
    var t' := Claimed(q.table, chosen, q.now);
    var refs := set id | id in chosen && id in t'.jobs :: ClaimRef(q.nextBatch, id);
    q.(table := t',
       claims := q.claims + map r | r in refs :: t'.jobs[r.id],
       nextBatch := q.nextBatch + 1,
       tally := map id | id in q.tally :: if id in chosen then q.tally[id].(claims := q.tally[id].claims + 1) else q.tally[id])
  }

  function DoSucceed(q: Queue, ref: ClaimRef): Queue {
    var h := TallyOf(q, ref.id);
    q.(table := MarkedSucceeded(q.table, ref.id, q.now),
       claims := q.claims - {ref},
       tally := q.tally[ref.id := h.(successes := h.successes + 1)])
  }

  function DoFail(q: Queue, ref: ClaimRef, recoverable: bool, nextRun: int, message: string): Queue
    requires ref in q.claims
  {
    var h := TallyOf(q, ref.id);
    q.(table := FailureStep(q.table, ref.id, q.claims[ref], recoverable, q.now, nextRun, message),
       claims := q.claims - {ref},
       tally := q.tally[ref.id :=
                          if GivesUp(q.claims[ref], recoverable) then h.(deadLetters := h.deadLetters + 1)
                          else h.(retries := h.retries + 1)])
  }

  function DoRecover(q: Queue, cutoff: int): Queue {
    q.(table := Recovered(q.table, cutoff, q.now),
       tally := map id | id in q.tally ::
         if id in Stale(q.table, cutoff) then q.tally[id].(recoveries := q.tally[id].recoveries + 1) else q.tally[id])
  }

  function Apply(q: Queue, e: Event): Queue {
    match e
    case Tick(now) => q.(now := now)
    case Insert(batch) => DoInsert(q, batch)
    case Claim(_, _, chosen) => DoClaim(q, chosen)
    case Succeed(ref) => DoSucceed(q, ref)
    case Fail(ref, recoverable, nextRun, message) =>
      if ref in q.claims then DoFail(q, ref, recoverable, nextRun, message) else q
    case Abandon(ref) => q.(claims := q.claims - {ref})
    case Recover(cutoff) => DoRecover(q, cutoff)
  }

  /** When the environment can make a step at all. */
  ghost predicate Enabled(q: Queue, e: Event, timeout: nat) {
    match e
    case Tick(now) => q.now <= now
    case Insert(_) => true
    case Claim(limit, locked, chosen) => IsBatch(q.table, q.now, limit, locked, chosen)
    case Succeed(ref) => ref in q.claims
    case Fail(ref, _, _, _) => ref in q.claims
    case Abandon(ref) => ref in q.claims
    // The cutoff was computed no later than now, by a clock that is not ahead.
    case Recover(cutoff) => cutoff + timeout <= q.now
  }

  /** The timing hypothesis: a resolution reaches the table within the recovery timeout. */
  predicate Timely(q: Queue, e: Event, timeout: nat) {
    match e
    case Succeed(ref) => ref in q.claims ==> Live(q, ref, timeout)
    case Fail(ref, _, _, _) => ref in q.claims ==> Live(q, ref, timeout)
    case _ => true
  }

  predicate Live(q: Queue, ref: ClaimRef, timeout: nat) {
    ref in q.claims && q.claims[ref].startedAt.Some? && q.now <= q.claims[ref].startedAt.value + timeout
  }

  /** The row is still exactly what the claim returned, and it is running. */
  predicate Owns(q: Queue, ref: ClaimRef) {
    ref in q.claims && ref.id in q.table.jobs && q.table.jobs[ref.id] == q.claims[ref] && q.claims[ref].status == Running
  }

  ghost predicate ValidRun(q: Queue, es: seq<Event>, timeout: nat)
    decreases es
  {
    es == [] || (Enabled(q, es[0], timeout) && Timely(q, es[0], timeout) && ValidRun(Apply(q, es[0]), es[1..], timeout))
  }

  function RunTo(q: Queue, es: seq<Event>): Queue
    decreases es
  {
    if es == [] then q else RunTo(Apply(q, es[0]), es[1..])
  }

  predicate Initial(q: Queue) {
    q.table.jobs == map[] && q.table.failed == map[] && q.claims == map[] && q.tally == map[]
  }

  // ------------------------------------------------------------- the invariants

  /** A claim `c` on row `id` owns the row or is past the timeout. */
  ghost predicate ClaimInv(jobs: map<nat, Job>, now: int, timeout: nat, id: nat, c: Job) {
    && c.startedAt.Some?
    && c.startedAt.value <= now
    && ((id in jobs && jobs[id] == c && c.status == Running) || c.startedAt.value + timeout < now)
  }

  /** Claims on one row differ in their start; running rows have one. */
  ghost predicate ClaimsInv(q: Queue, timeout: nat) {
    && (forall r :: r in q.claims ==> r.batch < q.nextBatch && ClaimInv(q.table.jobs, q.now, timeout, r.id, q.claims[r]))
    && (forall r, s :: r in q.claims && s in q.claims && r.id == s.id && r != s ==>
          q.claims[r].startedAt != q.claims[s].startedAt)
  }

  /** A row's counters and its failed_collection_jobs entry, in terms of its history. */
  ghost predicate RowInv(j: Job, entry: Option<FailedJob>, h: Tally) {
    && j.status in {Pending, Running, Succeeded, DeadLetter}
    && j.retryCount == h.base + h.retries + h.deadLetters + h.recoveries
    && h.claims == h.successes + h.retries + h.deadLetters + h.recoveries + (if j.status == Running then 1 else 0)
    && h.successes == (if j.status == Succeeded then 1 else 0)
    && h.deadLetters == (if j.status == DeadLetter then 1 else 0)
    && (h.retries == 0 || h.retries < j.maxRetry)
    && (entry.Some? <==> j.status == DeadLetter)
    && (entry.Some? ==> entry.value.retryCount == j.retryCount && entry.value.key == j.key && Some(entry.value.error) == j.error)
  }

  function EntryOf(t: Table, id: nat): Option<FailedJob> {
    if id in t.failed then Some(t.failed[id]) else None
  }

  ghost predicate TableInv(q: Queue) {
    && Indexed(q.table)
    && q.tally.Keys == q.table.jobs.Keys
    && q.table.failed.Keys <= q.table.jobs.Keys
    && forall id :: id in q.table.jobs ==> RowInv(q.table.jobs[id], EntryOf(q.table, id), q.tally[id])
  }

  ghost predicate Inv(q: Queue, timeout: nat) {
    ClaimsInv(q, timeout) && TableInv(q)
  }

  lemma InitialInv(q: Queue, timeout: nat)
    requires Initial(q)
    ensures Inv(q, timeout)
  {
  }

  // ------------------------------------------------------- every step keeps them

  lemma SameKeysSameIndex(t: Table, t': Table)
    requires Indexed(t) && t'.nextId == t.nextId && t'.jobs.Keys == t.jobs.Keys
    requires forall id :: id in t.jobs ==> t'.jobs[id].key == t.jobs[id].key
    ensures Indexed(t')
  {
  }

  lemma InsertKeepsTable(q: Queue, batch: seq<NewJob>)
    requires TableInv(q)
    ensures TableInv(DoInsert(q, batch))
  {
    InsertKeepsRows(q.table, batch);
    InsertedRowsAreFresh(q.table, batch);
  }

  lemma InsertKeepsClaims(q: Queue, batch: seq<NewJob>, timeout: nat)
    requires ClaimsInv(q, timeout) && Indexed(q.table)
    ensures ClaimsInv(DoInsert(q, batch), timeout)
  {
    InsertKeepsRows(q.table, batch);
  }

  lemma {:induction false} InsertedRowsAreFresh(t: Table, js: seq<NewJob>)
    requires Indexed(t)
    ensures forall id :: id in InsertAll(t, js).jobs && id !in t.jobs ==>
              InsertAll(t, js).jobs[id].status == Pending
  {
    if js != [] { InsertedRowsAreFresh(t, js[..|js| - 1]); }
  }

  lemma ClaimKeepsTable(q: Queue, chosen: set<nat>)
    requires TableInv(q) && forall id :: id in chosen ==> id in q.table.jobs && q.table.jobs[id].status == Pending
    ensures TableInv(DoClaim(q, chosen))
  {
    hide RowInv, Indexed, ClaimRow;
    var q' := DoClaim(q, chosen);
    forall id | id in q.table.jobs ensures q'.table.jobs[id].key == q.table.jobs[id].key { ClaimKeepsKey(q.table.jobs[id], q.now); }
    SameKeysSameIndex(q.table, q'.table);
    forall id | id in q'.table.jobs ensures RowInv(q'.table.jobs[id], EntryOf(q'.table, id), q'.tally[id]) {
      assert RowInv(q.table.jobs[id], EntryOf(q.table, id), q.tally[id]);
      if id in chosen { ClaimedRowInv(q.table.jobs[id], EntryOf(q.table, id), q.tally[id], q.now); }
    }
  }

  lemma ClaimKeepsKey(j: Job, now: int)
    ensures ClaimRow(j, now).key == j.key && RecoveredRow(j, now).key == j.key && SucceededRow(j, now).key == j.key
  {
  }

  lemma ClaimedRowInv(j: Job, entry: Option<FailedJob>, h: Tally, now: int)
    requires RowInv(j, entry, h) && j.status == Pending
    ensures RowInv(ClaimRow(j, now), entry, h.(claims := h.claims + 1))
  {
  }

  /** A pending row is owned by nobody, so every older claim on it is past the timeout. */
  lemma ClaimKeepsClaims(q: Queue, chosen: set<nat>, timeout: nat)
    requires ClaimsInv(q, timeout) && forall id :: id in chosen ==> id in q.table.jobs && q.table.jobs[id].status == Pending
    ensures ClaimsInv(DoClaim(q, chosen), timeout)
  {
    var q' := DoClaim(q, chosen);
    forall r | r in q.claims
      ensures r in q'.claims && q'.claims[r] == q.claims[r]
      ensures ClaimInv(q'.table.jobs, q'.now, timeout, r.id, q.claims[r])
      ensures r.id in chosen ==> q.claims[r].startedAt != Some(q.now)
    {
      assert ClaimInv(q.table.jobs, q.now, timeout, r.id, q.claims[r]);
    }
    forall r | r in q'.claims && r !in q.claims
      ensures r.batch == q.nextBatch && r.id in chosen && q'.claims[r].startedAt == Some(q.now)
      ensures ClaimInv(q'.table.jobs, q'.now, timeout, r.id, q'.claims[r])
    {
    }
  }

  /** Rewriting one row, with its history and its entry, keeps the table invariant. */
  lemma RewriteKeepsTable(q: Queue, q': Queue, id: nat)
    requires TableInv(q) && id in q.table.jobs
    requires q'.table.nextId == q.table.nextId
    requires q'.table.jobs.Keys == q.table.jobs.Keys && q'.tally.Keys == q.tally.Keys
    requires q'.table.failed.Keys <= q.table.failed.Keys + {id}
    requires q'.table.jobs[id].key == q.table.jobs[id].key
    requires RowInv(q'.table.jobs[id], EntryOf(q'.table, id), q'.tally[id])
    requires forall i :: i in q.table.jobs && i != id ==>
               q'.table.jobs[i] == q.table.jobs[i] && q'.tally[i] == q.tally[i] && EntryOf(q'.table, i) == EntryOf(q.table, i)
    ensures TableInv(q')
  {
    hide RowInv, Indexed;
    SameKeysSameIndex(q.table, q'.table);
  }

  lemma SucceededRowInv(j: Job, entry: Option<FailedJob>, h: Tally, now: int)
    requires RowInv(j, entry, h) && j.status == Running
    ensures RowInv(SucceededRow(j, now), entry, h.(successes := h.successes + 1))
  {
  }

  lemma SucceedKeepsTable(q: Queue, ref: ClaimRef)
    requires TableInv(q) && ref.id in q.table.jobs && q.table.jobs[ref.id].status == Running
    ensures TableInv(DoSucceed(q, ref))
  {
    hide RowInv, Indexed, SucceededRow;
    var q', id := DoSucceed(q, ref), ref.id;
    SucceededRowInv(q.table.jobs[id], EntryOf(q.table, id), q.tally[id], q.now);
    ClaimKeepsKey(q.table.jobs[id], q.now);
    RewriteKeepsTable(q, q', id);
  }

  /** A running row has no entry yet, under its id or under its key. */
  lemma RunningRowHasNoEntry(q: Queue, id: nat)
    requires TableInv(q) && id in q.table.jobs && q.table.jobs[id].status == Running
    ensures !FailedConflict(q.table, id, q.table.jobs[id].key)
  {
  }

  /** A dead letter must be recorded with the row's own count and key; a retry needs budget left. */
  predicate Agrees(seen: Job, row: Job, h: Tally, recoverable: bool) {
    if GivesUp(seen, recoverable) then seen.retryCount == row.retryCount && seen.key == row.key
    else h.retries + 1 < row.maxRetry
  }

  /** The row after the report, its entry and its history. */
  lemma FailureKeepsTableIff(q: Queue, ref: ClaimRef, recoverable: bool, nextRun: int, message: string)
    requires TableInv(q) && ref in q.claims && ref.id in q.table.jobs && ref.id in q.tally
    ensures TableInv(DoFail(q, ref, recoverable, nextRun, message)) <==>
            q.table.jobs[ref.id].status == Running && Agrees(q.claims[ref], q.table.jobs[ref.id], q.tally[ref.id], recoverable)
  {
    hide RowInv, Indexed, FailedConflict;
    FailureEntry(q, ref, recoverable, nextRun, message);
    var q', id := DoFail(q, ref, recoverable, nextRun, message), ref.id;
    var row, seen, h := q.table.jobs[id], q.claims[ref], q.tally[id];
    assert RowInv(row, EntryOf(q.table, id), h);
    if row.status == Running { RunningRowHasNoEntry(q, id); }
    FailureRowIff(row, seen, EntryOf(q.table, id), EntryOf(q'.table, id), h, recoverable, q.now, nextRun, message);
    if RowInv(q'.table.jobs[id], EntryOf(q'.table, id), q'.tally[id]) { RewriteKeepsTable(q, q', id); }
  }

  /** A dead letter's entry goes in unless the id or the key has one. */
  lemma FailureEntry(q: Queue, ref: ClaimRef, recoverable: bool, nextRun: int, message: string)
    requires ref in q.claims && ref.id in q.table.jobs
    ensures var q', seen := DoFail(q, ref, recoverable, nextRun, message), q.claims[ref];
            && (forall i :: i != ref.id ==> EntryOf(q'.table, i) == EntryOf(q.table, i))
            && EntryOf(q'.table, ref.id) ==
               (if GivesUp(seen, recoverable) && !FailedConflict(q.table, ref.id, seen.key)
               then Some(FailedJob(seen.key, seen.retryCount + 1, message)) else EntryOf(q.table, ref.id))
            && (EntryOf(q.table, ref.id).Some? ==> FailedConflict(q.table, ref.id, seen.key))
  {
  }

  /** One row: `entry'` is the old entry, or what a worker that saw `seen` records when nothing is there. */
  lemma FailureRowIff(row: Job, seen: Job, entry: Option<FailedJob>, entry': Option<FailedJob>, h: Tally,
                      recoverable: bool, now: int, nextRun: int, message: string)
    requires RowInv(row, entry, h)
    requires entry' == entry || (entry.None? && GivesUp(seen, recoverable) && entry' == Some(FailedJob(seen.key, seen.retryCount + 1, message)))
    requires row.status == Running && GivesUp(seen, recoverable) && seen.key == row.key ==> entry' != entry
    ensures (if GivesUp(seen, recoverable)
             then RowInv(FailedRow(row, now, message, true), entry', h.(deadLetters := h.deadLetters + 1))
             else RowInv(RetriedRow(row, now, nextRun, message), entry', h.(retries := h.retries + 1)))
            <==> row.status == Running && Agrees(seen, row, h, recoverable)
  {
  }

  lemma FailKeepsTable(q: Queue, ref: ClaimRef, recoverable: bool, nextRun: int, message: string)
    requires TableInv(q) && Owns(q, ref)
    ensures TableInv(DoFail(q, ref, recoverable, nextRun, message))
  {
    hide DoFail, Indexed;
    assert RowInv(q.table.jobs[ref.id], EntryOf(q.table, ref.id), q.tally[ref.id]);
    FailureKeepsTableIff(q, ref, recoverable, nextRun, message);
  }

  /** Dropping `ref` after rewriting its row: every other claim on the row must be past the timeout. */
  lemma ReleaseKeepsClaims(q: Queue, q': Queue, ref: ClaimRef, timeout: nat)
    requires ClaimsInv(q, timeout)
    requires q'.now == q.now && q'.nextBatch == q.nextBatch && q'.claims == q.claims - {ref}
    requires forall i :: i in q.table.jobs && i != ref.id ==> i in q'.table.jobs && q'.table.jobs[i] == q.table.jobs[i]
    requires forall r :: r in q.claims && r.id == ref.id && r != ref ==> q.claims[r].startedAt.value + timeout < q.now
    ensures ClaimsInv(q', timeout)
  {
  }

  lemma ResolveKeepsClaims(q: Queue, q': Queue, ref: ClaimRef, timeout: nat)
    requires ClaimsInv(q, timeout) && Owns(q, ref)
    requires q'.now == q.now && q'.nextBatch == q.nextBatch && q'.claims == q.claims - {ref}
    requires forall i :: i in q.table.jobs && i != ref.id ==> i in q'.table.jobs && q'.table.jobs[i] == q.table.jobs[i]
    ensures ClaimsInv(q', timeout)
  {
  }

  lemma RecoverKeepsTable(q: Queue, cutoff: int)
    requires TableInv(q)
    ensures TableInv(DoRecover(q, cutoff))
  {
    hide RowInv, Indexed, RecoveredRow;
    var q' := DoRecover(q, cutoff);
    forall id | id in q.table.jobs ensures q'.table.jobs[id].key == q.table.jobs[id].key { ClaimKeepsKey(q.table.jobs[id], q.now); }
    SameKeysSameIndex(q.table, q'.table);
    forall id | id in q'.table.jobs ensures RowInv(q'.table.jobs[id], EntryOf(q'.table, id), q'.tally[id]) {
      assert RowInv(q.table.jobs[id], EntryOf(q.table, id), q.tally[id]);
      if id in Stale(q.table, cutoff) { RecoveredRowInv(q.table.jobs[id], EntryOf(q.table, id), q.tally[id], q.now); }
    }
  }

  lemma RecoveredRowInv(j: Job, entry: Option<FailedJob>, h: Tally, now: int)
    requires RowInv(j, entry, h) && j.status == Running
    ensures RowInv(RecoveredRow(j, now), entry, h.(recoveries := h.recoveries + 1))
  {
  }

  /** A reset row started more than the timeout ago, so its claim is no longer live. */
  lemma RecoverKeepsClaims(q: Queue, cutoff: int, timeout: nat)
    requires ClaimsInv(q, timeout) && cutoff + timeout <= q.now
    ensures ClaimsInv(DoRecover(q, cutoff), timeout)
  {
  }

  lemma LiveClaimOwns(q: Queue, ref: ClaimRef, timeout: nat)
    requires ClaimsInv(q, timeout) && Live(q, ref, timeout)
    ensures Owns(q, ref)
  {
  }

  lemma SucceedKeepsInv(q: Queue, ref: ClaimRef, timeout: nat)
    requires Inv(q, timeout) && Live(q, ref, timeout)
    ensures Inv(DoSucceed(q, ref), timeout)
  {
    hide TableInv, ClaimsInv;
    StartedClaims(q, timeout);
    LiveClaimOwns(q, ref, timeout);
    SucceedKeepsTable(q, ref);
    ResolveKeepsClaims(q, DoSucceed(q, ref), ref, timeout);
  }

  lemma FailKeepsInv(q: Queue, ref: ClaimRef, timeout: nat, recoverable: bool, nextRun: int, message: string)
    requires Inv(q, timeout) && Live(q, ref, timeout)
    ensures Inv(DoFail(q, ref, recoverable, nextRun, message), timeout)
  {
    hide TableInv, ClaimsInv;
    StartedClaims(q, timeout);
    LiveClaimOwns(q, ref, timeout);
    FailKeepsTable(q, ref, recoverable, nextRun, message);
    ResolveKeepsClaims(q, DoFail(q, ref, recoverable, nextRun, message), ref, timeout);
  }

  lemma ClaimKeepsInv(q: Queue, timeout: nat, limit: nat, locked: set<nat>, chosen: set<nat>)
    requires Inv(q, timeout) && IsBatch(q.table, q.now, limit, locked, chosen)
    ensures Inv(DoClaim(q, chosen), timeout)
  {
    hide TableInv, ClaimsInv, DoClaim;
    ClaimKeepsTable(q, chosen);
    ClaimKeepsClaims(q, chosen, timeout);
  }

  lemma IndexedTable(q: Queue)
    requires TableInv(q)
    ensures Indexed(q.table)
  {
  }

  lemma TickKeepsTable(q: Queue, q': Queue)
    requires TableInv(q) && q'.table == q.table && q'.tally == q.tally
    ensures TableInv(q')
  {
  }

  lemma AbandonKeepsClaims(q: Queue, ref: ClaimRef, timeout: nat)
    requires ClaimsInv(q, timeout)
    ensures ClaimsInv(q.(claims := q.claims - {ref}), timeout)
  {
  }

  lemma StepKeepsInv(q: Queue, e: Event, timeout: nat)
    requires Inv(q, timeout) && Enabled(q, e, timeout) && Timely(q, e, timeout)
    ensures Inv(Apply(q, e), timeout)
  {
    hide TableInv, ClaimsInv, IsBatch, Indexed, DoInsert, DoClaim, DoSucceed, DoFail, DoRecover;
    match e
    case Insert(batch) =>
      IndexedTable(q);
      InsertKeepsTable(q, batch);
      InsertKeepsClaims(q, batch, timeout);
    case Claim(limit, locked, chosen) => ClaimKeepsInv(q, timeout, limit, locked, chosen);
    case Succeed(ref) => SucceedKeepsInv(q, ref, timeout);
    case Fail(ref, recoverable, nextRun, message) => FailKeepsInv(q, ref, timeout, recoverable, nextRun, message);
    case Recover(cutoff) =>
      RecoverKeepsTable(q, cutoff);
      RecoverKeepsClaims(q, cutoff, timeout);
    case Tick(now) =>
      TickKeepsTable(q, q.(now := now));
      TickKeepsClaims(q, now, timeout);
    case Abandon(ref) =>
      TickKeepsTable(q, q.(claims := q.claims - {ref}));
      AbandonKeepsClaims(q, ref, timeout);
  }

  lemma StartedClaims(q: Queue, timeout: nat)
    requires ClaimsInv(q, timeout)
    ensures forall r :: r in q.claims ==> q.claims[r].startedAt.Some?
  {
  }

  lemma TickKeepsClaims(q: Queue, now: int, timeout: nat)
    requires ClaimsInv(q, timeout) && q.now <= now
    ensures ClaimsInv(q.(now := now), timeout)
  {
  }

  lemma {:induction false} RunKeepsInv(q: Queue, es: seq<Event>, timeout: nat)
    requires Inv(q, timeout) && ValidRun(q, es, timeout)
    ensures Inv(RunTo(q, es), timeout)
    decreases es
  {
    if es != [] {
      StepKeepsInv(q, es[0], timeout);
      RunKeepsInv(Apply(q, es[0]), es[1..], timeout);
    }
  }

  // --------------------------------------------------------- what a run guarantees

  /**
    Exclusivity, in every interleaving: a running row has at most one live
    claimant, and rows that are not running have none.
   */
  lemma ExclusiveClaims(q: Queue, es: seq<Event>, timeout: nat)
    requires Initial(q) && ValidRun(q, es, timeout)
    ensures var q' := RunTo(q, es);
            && (forall r, s :: Live(q', r, timeout) && Live(q', s, timeout) && r.id == s.id ==> r == s)
            && (forall r :: Live(q', r, timeout) ==> r.id in q'.table.jobs && q'.table.jobs[r.id].status == Running)
  {
    InitialInv(q, timeout);
    RunKeepsInv(q, es, timeout);
    var q' := RunTo(q, es);
    forall r | Live(q', r, timeout) ensures Owns(q', r) {
      LiveClaimOwns(q', r, timeout);
    }
  }

  predicate Terminal(j: Job) {
    j.status == Succeeded || j.status == DeadLetter
  }

  lemma StepKeepsTerminalRow(q: Queue, e: Event, timeout: nat, id: nat)
    requires Inv(q, timeout) && Enabled(q, e, timeout) && Timely(q, e, timeout)
    requires id in q.table.jobs && Terminal(q.table.jobs[id])
    ensures id in Apply(q, e).table.jobs && Apply(q, e).table.jobs[id] == q.table.jobs[id]
  {
    hide TableInv, ClaimsInv, InsertAll, Indexed;
    if e.Insert? {
      IndexedTable(q);
      InsertKeepsRows(q.table, e.batch);
    } else if e.Succeed? || e.Fail? {
      LiveClaimOwns(q, e.ref, timeout);
    }
  }

  /** A succeeded or dead-lettered row never changes again. */
  lemma {:induction false} TerminalRowsAreFinal(q: Queue, es: seq<Event>, timeout: nat, id: nat)
    requires Inv(q, timeout) && ValidRun(q, es, timeout)
    requires id in q.table.jobs && Terminal(q.table.jobs[id])
    ensures id in RunTo(q, es).table.jobs && RunTo(q, es).table.jobs[id] == q.table.jobs[id]
    decreases es
  {
    hide Inv, Apply, Enabled, Timely;
    if es != [] {
      StepKeepsTerminalRow(q, es[0], timeout, id);
      StepKeepsInv(q, es[0], timeout);
      TerminalRowsAreFinal(Apply(q, es[0]), es[1..], timeout, id);
    }
  }

  /**
    Accounting: retry_count counts exactly the claims that ended in retry, dead
    letter or recovery; claims are bounded by the retry budget plus recoveries; and
    failed_collection_jobs holds exactly the dead letters, with the row's retry_count and error.
   */
  lemma RetryAccounting(q: Queue, es: seq<Event>, timeout: nat, id: nat)
    requires Initial(q) && ValidRun(q, es, timeout)
    requires id in RunTo(q, es).table.jobs
    ensures var q' := RunTo(q, es);
            && id in q'.tally && q'.table.failed.Keys <= q'.table.jobs.Keys
            && var j, h := q'.table.jobs[id], q'.tally[id];
               && j.retryCount == h.base + h.retries + h.deadLetters + h.recoveries
               && h.claims <= (if j.maxRetry < 1 then 1 else j.maxRetry) + h.recoveries
               && (id in q'.table.failed <==> j.status == DeadLetter)
               && (id in q'.table.failed ==>
                     var entry := q'.table.failed[id];
                     entry.retryCount == j.retryCount && entry.key == j.key && Some(entry.error) == j.error)
  {
    InitialInv(q, timeout);
    RunKeepsInv(q, es, timeout);
    var q' := RunTo(q, es);
    assert RowInv(q'.table.jobs[id], EntryOf(q'.table, id), q'.tally[id]);
  }

  // How often a job is tried.

  ghost predicate OnlyRecoverable(es: seq<Event>, id: nat) {
    forall i :: 0 <= i < |es| && es[i].Fail? && es[i].ref.id == id ==> es[i].recoverable
  }

  /** A dead letter has used up its retries, and no retry without a recovery went beyond them. */
  ghost predicate TriesInv(q: Queue, id: nat) {
    id in q.table.jobs && id in q.tally ==>
      var j, h := q.table.jobs[id], q.tally[id];
      && (j.status == DeadLetter ==> j.maxRetry <= j.retryCount)
      && (h.recoveries == 0 && h.retries > 0 ==> h.base + h.retries < j.maxRetry)
  }

  /** A recoverable failure of a worker that owns the row. */
  lemma FailKeepsTries(q: Queue, ref: ClaimRef, nextRun: int, message: string)
    requires TableInv(q) && Owns(q, ref) && TriesInv(q, ref.id)
    ensures TriesInv(DoFail(q, ref, true, nextRun, message), ref.id)
  {
    hide Indexed, FailedConflict;
    assert RowInv(q.table.jobs[ref.id], EntryOf(q.table, ref.id), q.tally[ref.id]);
  }

  /** Other rows, and other events. */
  lemma OthersKeepTries(q: Queue, e: Event, timeout: nat, id: nat)
    requires TriesInv(q, id) && Enabled(q, e, timeout) && Indexed(q.table) && q.tally.Keys == q.table.jobs.Keys
    requires !(e.Fail? && e.ref.id == id)
    ensures TriesInv(Apply(q, e), id)
  {
    hide InsertAll, Indexed, FailedConflict;
    if e.Insert? {
      InsertKeepsRows(q.table, e.batch);
      InsertedRowsAreFresh(q.table, e.batch);
    }
  }

  lemma StepKeepsTries(q: Queue, e: Event, timeout: nat, id: nat)
    requires Inv(q, timeout) && Enabled(q, e, timeout) && Timely(q, e, timeout) && TriesInv(q, id)
    requires e.Fail? && e.ref.id == id ==> e.recoverable
    ensures TriesInv(Apply(q, e), id)
  {
    hide TriesInv, Indexed, ClaimsInv, DoFail, RowInv;
    if e.Fail? && e.ref.id == id {
      LiveClaimOwns(q, e.ref, timeout);
      FailKeepsTries(q, e.ref, e.nextRun, e.message);
    } else {
      OthersKeepTries(q, e, timeout, id);
    }
  }

  lemma {:induction false} RunKeepsTries(q: Queue, es: seq<Event>, timeout: nat, id: nat)
    requires Inv(q, timeout) && ValidRun(q, es, timeout) && OnlyRecoverable(es, id) && TriesInv(q, id)
    ensures Inv(RunTo(q, es), timeout) && TriesInv(RunTo(q, es), id)
    decreases es
  {
    hide Inv, Apply, Enabled, Timely, TriesInv;
    if es != [] {
      StepKeepsInv(q, es[0], timeout);
      StepKeepsTries(q, es[0], timeout, id);
      assert forall i :: 0 <= i < |es| - 1 ==> es[1..][i] == es[i + 1];
      RunKeepsTries(Apply(q, es[0]), es[1..], timeout, id);
    }
  }

  /**
    Exactly as many tries as allowed: a job that became a dead letter by recoverable failures
    alone, and was never reset, was claimed once for every retry its row allowed, at least once.
   */
  lemma TriesAreExact(q: Queue, es: seq<Event>, timeout: nat, id: nat)
    requires Initial(q) && ValidRun(q, es, timeout) && OnlyRecoverable(es, id)
    requires id in RunTo(q, es).table.jobs && RunTo(q, es).table.jobs[id].status == DeadLetter
    requires id in RunTo(q, es).tally && RunTo(q, es).tally[id].recoveries == 0
    ensures var j, h := RunTo(q, es).table.jobs[id], RunTo(q, es).tally[id];
            h.claims == if h.base + 1 < j.maxRetry then j.maxRetry - h.base else 1
  {
    InitialInv(q, timeout);
    RunKeepsTries(q, es, timeout, id);
    var q' := RunTo(q, es);
    assert RowInv(q'.table.jobs[id], EntryOf(q'.table, id), q'.tally[id]);
  }

  /** No two rows ever carry one idempotency key, whatever was inserted. */
  lemma KeysStayUnique(q: Queue, es: seq<Event>, timeout: nat, i: nat, j: nat)
    requires Initial(q) && ValidRun(q, es, timeout)
    requires i in RunTo(q, es).table.jobs && j in RunTo(q, es).table.jobs
    requires RunTo(q, es).table.jobs[i].key == RunTo(q, es).table.jobs[j].key
    ensures i == j
  {
    InitialInv(q, timeout);
    RunKeepsInv(q, es, timeout);
  }

  // ------------------------------------------------- the hypothesis cannot be dropped

  /**
    Exactly when a success report, timely or not, keeps the protocol intact: the row
    is running and no other claim on it is live.
   */
  lemma SuccessIsSafeIff(q: Queue, ref: ClaimRef, timeout: nat)
    requires Inv(q, timeout) && ref in q.claims && ref.id in q.table.jobs
    ensures Inv(Apply(q, Succeed(ref)), timeout) <==>
            && q.table.jobs[ref.id].status == Running
            && forall s :: Live(q, s, timeout) && s.id == ref.id ==> s == ref
  {
    if q.table.jobs[ref.id].status != Running {
      SuccessOnIdleRowMiscounts(q, ref, timeout);
    } else if s :| Live(q, s, timeout) && s.id == ref.id && s != ref {
      SuccessRobsOther(q, ref, s, timeout);
    } else {
      SucceedKeepsTable(q, ref);
      StartedClaims(q, timeout);
      ReleaseKeepsClaims(q, DoSucceed(q, ref), ref, timeout);
    }
  }

  lemma SuccessOnIdleRowMiscounts(q: Queue, ref: ClaimRef, timeout: nat)
    requires TableInv(q) && ref.id in q.table.jobs && q.table.jobs[ref.id].status != Running
    ensures !Inv(DoSucceed(q, ref), timeout)
  {
    var q', id := DoSucceed(q, ref), ref.id;
    assert RowInv(q.table.jobs[id], EntryOf(q.table, id), q.tally[id]);
    assert !RowInv(q'.table.jobs[id], EntryOf(q'.table, id), q'.tally[id]);
  }

  lemma SuccessRobsOther(q: Queue, ref: ClaimRef, other: ClaimRef, timeout: nat)
    requires ref.id in q.table.jobs && Live(q, other, timeout) && other.id == ref.id && other != ref
    ensures !Inv(DoSucceed(q, ref), timeout)
  {
  }

  /**
    Exactly when a failure report, timely or not, keeps the protocol intact: the row is
    running, no other claim on it is live, and the worker's copy agrees with the row.
   */
  lemma FailureIsSafeIff(q: Queue, ref: ClaimRef, recoverable: bool, nextRun: int, message: string, timeout: nat)
    requires Inv(q, timeout) && ref in q.claims && ref.id in q.table.jobs && ref.id in q.tally
    ensures Inv(Apply(q, Fail(ref, recoverable, nextRun, message)), timeout) <==>
            && q.table.jobs[ref.id].status == Running
            && (forall s :: Live(q, s, timeout) && s.id == ref.id ==> s == ref)
            && Agrees(q.claims[ref], q.table.jobs[ref.id], q.tally[ref.id], recoverable)
  {
    hide TableInv, ClaimsInv, DoFail, Agrees;
    var q' := DoFail(q, ref, recoverable, nextRun, message);
    FailureKeepsTableIff(q, ref, recoverable, nextRun, message);
    if s :| Live(q, s, timeout) && s.id == ref.id && s != ref {
      FailureRobsOther(q, ref, s, recoverable, nextRun, message, timeout);
    } else {
      StartedClaims(q, timeout);
      FailureFrame(q, ref, recoverable, nextRun, message);
      ReleaseKeepsClaims(q, q', ref, timeout);
    }
  }

  lemma FailureFrame(q: Queue, ref: ClaimRef, recoverable: bool, nextRun: int, message: string)
    requires ref in q.claims
    ensures var q' := DoFail(q, ref, recoverable, nextRun, message);
            && q'.now == q.now && q'.nextBatch == q.nextBatch && q'.claims == q.claims - {ref}
            && (forall i :: i in q.table.jobs && i != ref.id ==> i in q'.table.jobs && q'.table.jobs[i] == q.table.jobs[i])
  {
  }

  lemma FailureRobsOther(q: Queue, ref: ClaimRef, other: ClaimRef, recoverable: bool, nextRun: int, message: string, timeout: nat)
    requires ref in q.claims && ref.id in q.table.jobs && Live(q, other, timeout) && other.id == ref.id && other != ref
    ensures !ClaimsInv(DoFail(q, ref, recoverable, nextRun, message), timeout)
  {
    var q' := DoFail(q, ref, recoverable, nextRun, message);
    assert other in q'.claims && !ClaimInv(q'.table.jobs, q'.now, timeout, other.id, q'.claims[other]);
  }

  // ---------------------------------------------------- finality without the hypothesis

  /** Runs in which reports may come at any time. */
  ghost predicate EnabledRun(q: Queue, es: seq<Event>, timeout: nat)
    decreases es
  {
    es == [] || (Enabled(q, es[0], timeout) && EnabledRun(Apply(q, es[0]), es[1..], timeout))
  }

  predicate Unclaimed(q: Queue, id: nat) { forall r :: r in q.claims ==> r.id != id }

  lemma StepKeepsIndex(q: Queue, e: Event)
    requires Indexed(q.table)
    ensures Indexed(Apply(q, e).table)
  {
    hide Indexed, InsertAll, RecoveredRow, SucceededRow, ClaimRow, FailedConflict;
    var q' := Apply(q, e);
    if e.Insert? {
      InsertKeepsRows(q.table, e.batch);
    } else {
      forall i | i in q.table.jobs ensures i in q'.table.jobs && q'.table.jobs[i].key == q.table.jobs[i].key {
        ClaimKeepsKey(q.table.jobs[i], q.now);
      }
      SameKeysSameIndex(q.table, q'.table);
    }
  }

  /** No step of any kind touches a finished row that nobody holds, nor lets anybody hold it. */
  lemma StepKeepsUnclaimedRow(q: Queue, e: Event, timeout: nat, id: nat)
    requires Indexed(q.table) && Enabled(q, e, timeout) && Unclaimed(q, id)
    requires id in q.table.jobs && Terminal(q.table.jobs[id])
    ensures var q' := Apply(q, e);
            Indexed(q'.table) && Unclaimed(q', id) && id in q'.table.jobs && q'.table.jobs[id] == q.table.jobs[id]
  {
    hide InsertAll, Indexed, RecoveredRow, SucceededRow, FailedConflict;
    StepKeepsIndex(q, e);
    if e.Insert? { InsertKeepsRows(q.table, e.batch); }
  }

  lemma {:induction false} UnclaimedRowIsFinal(q: Queue, es: seq<Event>, timeout: nat, id: nat)
    requires Indexed(q.table) && EnabledRun(q, es, timeout) && Unclaimed(q, id)
    requires id in q.table.jobs && Terminal(q.table.jobs[id])
    ensures id in RunTo(q, es).table.jobs && RunTo(q, es).table.jobs[id] == q.table.jobs[id]
    decreases es
  {
    hide Indexed, Apply, Enabled, Unclaimed;
    if es != [] {
      StepKeepsUnclaimedRow(q, es[0], timeout, id);
      UnclaimedRowIsFinal(Apply(q, es[0]), es[1..], timeout, id);
    }
  }

  /** A failure report by any holder changes a finished row's status or its retry_count. */
  lemma AnyHolderCanChangeRow(q: Queue, ref: ClaimRef)
    requires ref in q.claims && ref.id in q.table.jobs && Terminal(q.table.jobs[ref.id])
    ensures var j, q' := q.table.jobs[ref.id], Apply(q, Fail(ref, false, 0, ""));
            ref.id in q'.table.jobs && (q'.table.jobs[ref.id].status != j.status || q'.table.jobs[ref.id].retryCount != j.retryCount)
  {
  }

  lemma OneEvent(q: Queue, e: Event, timeout: nat)
    ensures RunTo(q, [e]) == Apply(q, e)
    ensures EnabledRun(q, [e], timeout) <==> Enabled(q, e, timeout)
    ensures ValidRun(q, [e], timeout) <==> Enabled(q, e, timeout) && Timely(q, e, timeout)
  {
    hide Apply, Enabled, Timely;
    assert [e][1..] == [];
  }

  /** Runs one after the other. */
  lemma {:induction false} RunsAppend(q: Queue, es: seq<Event>, fs: seq<Event>, timeout: nat)
    ensures RunTo(q, es + fs) == RunTo(RunTo(q, es), fs)
    ensures EnabledRun(q, es + fs, timeout) <==> EnabledRun(q, es, timeout) && EnabledRun(RunTo(q, es), fs, timeout)
    ensures ValidRun(q, es + fs, timeout) <==> ValidRun(q, es, timeout) && ValidRun(RunTo(q, es), fs, timeout)
    decreases es
  {
    hide Apply, Enabled, Timely;
    if es == [] {
      assert es + fs == fs;
    } else {
      assert (es + fs)[1..] == es[1..] + fs;
      RunsAppend(Apply(q, es[0]), es[1..], fs, timeout);
    }
  }

  /** What every run, timely or not, leaves of a row. */
  ghost predicate Final(q: Queue, timeout: nat, id: nat)
    requires id in q.table.jobs
  {
    forall es :: EnabledRun(q, es, timeout) ==>
      var jobs := RunTo(q, es).table.jobs;
      id in jobs && jobs[id].status == q.table.jobs[id].status && jobs[id].retryCount == q.table.jobs[id].retryCount
  }

  /** Reports at any time, a finished row is final exactly when no unresolved claim names it. */
  lemma FinalIff(q: Queue, timeout: nat, id: nat)
    requires Indexed(q.table) && id in q.table.jobs && Terminal(q.table.jobs[id])
    ensures Final(q, timeout, id) <==> Unclaimed(q, id)
  {
    hide Indexed, Apply;
    if Unclaimed(q, id) {
      forall es | EnabledRun(q, es, timeout) ensures id in RunTo(q, es).table.jobs && RunTo(q, es).table.jobs[id] == q.table.jobs[id] {
        UnclaimedRowIsFinal(q, es, timeout, id);
      }
    } else {
      var r :| r in q.claims && r.id == id;
      AnyHolderCanChangeRow(q, r);
      var e := Fail(r, false, 0, "");
      OneEvent(q, e, timeout);
    }
  }

  // ------------------------------------------------------- when a row may be claimed

  predicate Reports(e: Event, id: nat) { (e.Succeed? || e.Fail?) && e.ref.id == id }

  predicate Takes(e: Event, id: nat) { e.Claim? && id in e.chosen }

  lemma {:induction false} ClockRises(q: Queue, es: seq<Event>, timeout: nat)
    requires EnabledRun(q, es, timeout)
    ensures q.now <= RunTo(q, es).now
    decreases es
  {
    if es != [] { ClockRises(Apply(q, es[0]), es[1..], timeout); }
  }

  /** No step but a report touches a pending row that is not due. */
  lemma StepKeepsWaitingRow(q: Queue, e: Event, timeout: nat, id: nat)
    requires Indexed(q.table) && Enabled(q, e, timeout) && !Reports(e, id)
    requires id in q.table.jobs && q.table.jobs[id].status == Pending && q.now < q.table.jobs[id].scheduledAt
    ensures !Takes(e, id) && id in Apply(q, e).table.jobs && Apply(q, e).table.jobs[id] == q.table.jobs[id]
  {
    hide Indexed, InsertAll, RecoveredRow, SucceededRow, FailedConflict;
    if e.Insert? { InsertKeepsRows(q.table, e.batch); }
  }

  /** A pending row is neither claimed nor changed before it is due, unless a report names it. */
  lemma {:induction false} WaitingRowIsLeftAlone(q: Queue, es: seq<Event>, timeout: nat, id: nat)
    requires Indexed(q.table) && EnabledRun(q, es, timeout) && forall i :: 0 <= i < |es| ==> !Reports(es[i], id)
    requires id in q.table.jobs && q.table.jobs[id].status == Pending && RunTo(q, es).now < q.table.jobs[id].scheduledAt
    ensures id in RunTo(q, es).table.jobs && RunTo(q, es).table.jobs[id] == q.table.jobs[id]
    ensures forall i :: 0 <= i < |es| ==> !Takes(es[i], id)
    decreases es
  {
    hide Indexed, Apply, Enabled, Reports, Takes;
    if es != [] {
      ClockRises(q, es, timeout);
      StepKeepsWaitingRow(q, es[0], timeout, id);
      StepKeepsIndex(q, es[0]);
      WaitingRowIsLeftAlone(Apply(q, es[0]), es[1..], timeout, id);
      assert forall i :: 0 < i < |es| ==> es[i] == es[1..][i - 1];
    }
  }

  /**
    A retry waits for its next run: until then no run claims or changes the row, whatever
    else happens, unless another report names it.
   */
  lemma RetriedRowWaits(q: Queue, ref: ClaimRef, nextRun: int, message: string, es: seq<Event>, timeout: nat)
    requires Indexed(q.table) && ref in q.claims && ref.id in q.table.jobs && !GivesUp(q.claims[ref], true)
    requires var q' := Apply(q, Fail(ref, true, nextRun, message));
             EnabledRun(q', es, timeout) && RunTo(q', es).now < nextRun
    requires forall i :: 0 <= i < |es| ==> !Reports(es[i], ref.id)
    ensures var jobs := RunTo(Apply(q, Fail(ref, true, nextRun, message)), es).table.jobs;
            ref.id in jobs && jobs[ref.id].status == Pending && jobs[ref.id].retryCount == q.table.jobs[ref.id].retryCount + 1
    ensures forall i :: 0 <= i < |es| ==> !Takes(es[i], ref.id)
  {
    var e := Fail(ref, true, nextRun, message);
    StepKeepsIndex(q, e);
    WaitingRowIsLeftAlone(Apply(q, e), es, timeout, ref.id);
  }

  /** And from then on the next claim with room takes it. */
  lemma RetriedRowComesBack(q: Queue, ref: ClaimRef, nextRun: int, message: string, now: int, limit: nat, locked: set<nat>, chosen: set<nat>)
    requires ref in q.claims && ref.id in q.table.jobs && !GivesUp(q.claims[ref], true)
    requires var t := Apply(q, Fail(ref, true, nextRun, message)).table;
             IsBatch(t, now, limit, locked, chosen) && |Claimable(t, now, locked)| <= limit
    ensures ref.id in chosen <==> nextRun <= now && ref.id !in locked
  {
    hide IsBatch, Claimable;
    RetriedIsClaimableIff(q.table, ref.id, q.now, nextRun, message, now, locked);
    RoomyBatch(Apply(q, Fail(ref, true, nextRun, message)).table, now, limit, locked, chosen);
  }

  /** A row that recovery reset is taken by the next claim with room, at the same instant already. */
  lemma RecoveredRowComesBack(q: Queue, cutoff: int, id: nat, now: int, limit: nat, locked: set<nat>, chosen: set<nat>)
    requires id in Stale(q.table, cutoff) && q.now <= now
    requires var t := Apply(q, Recover(cutoff)).table;
             IsBatch(t, now, limit, locked, chosen) && |Claimable(t, now, locked)| <= limit
    ensures id in chosen <==> id !in locked
  {
    hide IsBatch, Claimable, Stale;
    RecoveredIsClaimableIff(q.table, cutoff, q.now, id, now, locked);
    RoomyBatch(Apply(q, Recover(cutoff)).table, now, limit, locked, chosen);
  }

  // ------------------------------------------------------- what the columns tell

  /** The time and error columns of a row, in terms of its history. */
  ghost predicate ColumnInv(j: Job, h: Tally, now: int) {
    && (j.startedAt.Some? <==> h.claims > 0) && (j.startedAt.Some? ==> j.startedAt.value <= now)
    && (j.finishedAt.Some? <==> h.successes + h.retries + h.deadLetters > 0) && (j.finishedAt.Some? ==> j.finishedAt.value <= now)
    && (j.error.Some? <==> j.status != Succeeded && h.retries + h.deadLetters + h.recoveries > 0)
    && (j.nextRetryAt.Some? ==> j.status != Succeeded && h.retries + h.recoveries > 0)
    && (j.status == Pending && h.retries + h.recoveries > 0 ==> j.nextRetryAt.Some? && j.scheduledAt <= j.nextRetryAt.value)
    && (j.status == Running ==> j.startedAt.Some? && j.scheduledAt <= j.startedAt.value)
  }

  ghost predicate ColumnsInv(q: Queue) {
    && Indexed(q.table)
    && q.tally.Keys == q.table.jobs.Keys
    && (forall r :: r in q.claims ==> r.id in q.table.jobs)
    && forall id :: id in q.table.jobs ==> ColumnInv(q.table.jobs[id], q.tally[id], q.now)
  }

  /** The rows of one step, each with its history. */
  lemma RowStepsKeepColumns(j: Job, h: Tally, now: int, nextRun: int, message: string)
    requires ColumnInv(j, h, now)
    ensures j.status == Pending && j.scheduledAt <= now ==> ColumnInv(ClaimRow(j, now), h.(claims := h.claims + 1), now)
    ensures ColumnInv(SucceededRow(j, now), h.(successes := h.successes + 1), now)
    ensures ColumnInv(RetriedRow(j, now, nextRun, message), h.(retries := h.retries + 1), now)
    ensures ColumnInv(FailedRow(j, now, message, true), h.(deadLetters := h.deadLetters + 1), now)
    ensures ColumnInv(RecoveredRow(j, now), h.(recoveries := h.recoveries + 1), now)
    ensures forall later :: now <= later ==> ColumnInv(j, h, later)
  {
  }

  /** Each row is as it was, or one of those steps. */
  lemma StepKeepsColumn(q: Queue, e: Event, timeout: nat, id: nat)
    requires ColumnsInv(q) && Enabled(q, e, timeout) && !e.Insert? && id in q.table.jobs
    ensures var q' := Apply(q, e); id in q'.table.jobs && id in q'.tally && ColumnInv(q'.table.jobs[id], q'.tally[id], q'.now)
  {
    hide Indexed, ColumnInv, ClaimRow, SucceededRow, RetriedRow, FailedRow, RecoveredRow, FailedConflict, GivesUp;
    var nextRun, message := if e.Fail? then e.nextRun else 0, if e.Fail? then e.message else "";
    RowStepsKeepColumns(q.table.jobs[id], q.tally[id], q.now, nextRun, message);
  }

  lemma SameRows(q: Queue, e: Event, timeout: nat)
    requires ColumnsInv(q) && Enabled(q, e, timeout) && !e.Insert?
    ensures var q' := Apply(q, e);
            q'.table.jobs.Keys == q.table.jobs.Keys == q'.tally.Keys && forall r :: r in q'.claims ==> r.id in q.table.jobs
  {
    hide Indexed, ColumnInv, ClaimRow, SucceededRow, RetriedRow, FailedRow, RecoveredRow, FailedConflict, GivesUp;
  }

  lemma StepKeepsColumns(q: Queue, e: Event, timeout: nat)
    requires ColumnsInv(q) && Enabled(q, e, timeout)
    ensures ColumnsInv(Apply(q, e))
  {
    hide Indexed, ColumnInv, InsertAll;
    StepKeepsIndex(q, e);
    if e.Insert? {
      InsertKeepsRows(q.table, e.batch);
      InsertedColumns(q.table, e.batch, q.now);
    } else {
      hide Apply;
      SameRows(q, e, timeout);
      forall id | id in q.table.jobs ensures ColumnInv(Apply(q, e).table.jobs[id], Apply(q, e).tally[id], Apply(q, e).now) {
        StepKeepsColumn(q, e, timeout, id);
      }
    }
  }

  lemma {:induction false} InsertedColumns(t: Table, js: seq<NewJob>, now: int)
    requires Indexed(t)
    ensures forall id :: id in InsertAll(t, js).jobs && id !in t.jobs ==>
              var j := InsertAll(t, js).jobs[id]; ColumnInv(j, Tally(j.retryCount, 0, 0, 0, 0, 0), now)
  {
    if js != [] { InsertedColumns(t, js[..|js| - 1], now); }
  }

  lemma {:induction false} RunKeepsColumns(q: Queue, es: seq<Event>, timeout: nat)
    requires ColumnsInv(q) && EnabledRun(q, es, timeout)
    ensures ColumnsInv(RunTo(q, es))
    decreases es
  {
    hide ColumnsInv, Apply, Enabled;
    if es != [] {
      StepKeepsColumns(q, es[0], timeout);
      RunKeepsColumns(Apply(q, es[0]), es[1..], timeout);
    }
  }

  /**
    In every run, reports at any time, a row's columns tell its history: whether it was ever
    claimed and ever reported on, whether its last outcome was a failure, and until when a
    pending row waits.
   */
  lemma ColumnsTellHistory(q: Queue, es: seq<Event>, timeout: nat, id: nat)
    requires Initial(q) && EnabledRun(q, es, timeout) && id in RunTo(q, es).table.jobs
    ensures id in RunTo(q, es).tally && ColumnInv(RunTo(q, es).table.jobs[id], RunTo(q, es).tally[id], RunTo(q, es).now)
  {
    hide ColumnInv, RunTo;
    RunKeepsColumns(q, es, timeout);
  }

  // Timeout 10: a job is claimed at 0, recovered at 11, claimed again and finished.

  const DEMO_PENDING := Job("k", Pending, 1, 0, None, None, None, 0, 3, None)
  const DEMO_FIRST := ClaimRow(DEMO_PENDING, 0)
  const DEMO_RESET := RecoveredRow(DEMO_FIRST, 11)
  const DEMO_SECOND := ClaimRow(DEMO_RESET, 11)
  const DEMO_DONE := SucceededRow(DEMO_SECOND, 11)

  function DemoQueue(job: Job, now: int, claims: map<ClaimRef, Job>, nextBatch: nat, h: Tally): Queue {
    Queue(Table(map[0 := job], map[], 1), now, claims, nextBatch, map[0 := h])
  }

  /** The queue after the first `n` demo events. */
  function DemoAfter(n: nat): Queue {
    var c0, c1 := ClaimRef(0, 0), ClaimRef(1, 0);
    match n
    case 0 => Queue(Table(map[], map[], 0), 0, map[], 0, map[])
    case 1 => DemoQueue(DEMO_PENDING, 0, map[], 0, Tally(0, 0, 0, 0, 0, 0))
    case 2 => DemoQueue(DEMO_FIRST, 0, map[c0 := DEMO_FIRST], 1, Tally(0, 1, 0, 0, 0, 0))
    case 3 => DemoQueue(DEMO_FIRST, 11, map[c0 := DEMO_FIRST], 1, Tally(0, 1, 0, 0, 0, 0))
    case 4 => DemoQueue(DEMO_RESET, 11, map[c0 := DEMO_FIRST], 1, Tally(0, 1, 0, 0, 0, 1))
    case 5 => DemoQueue(DEMO_SECOND, 11, map[c0 := DEMO_FIRST, c1 := DEMO_SECOND], 2, Tally(0, 2, 0, 0, 0, 1))
    case _ => DemoQueue(DEMO_DONE, 11, map[c0 := DEMO_FIRST], 2, Tally(0, 2, 1, 0, 0, 1))
  }

  function DemoEvents(): seq<Event> {
    [Insert([NewJob("k", 1, 0, 0, 3)]), Claim(1, {}, {0}), Tick(11), Recover(1), Claim(1, {}, {0}), Succeed(ClaimRef(1, 0))]
  }

  ghost predicate DemoMove(n: nat, e: Event) {
    Enabled(DemoAfter(n), e, 10) && Timely(DemoAfter(n), e, 10) && Apply(DemoAfter(n), e) == DemoAfter(n + 1)
  }

  lemma DemoInsert()
    ensures DemoMove(0, Insert([NewJob("k", 1, 0, 0, 3)]))
  {
  }

  /** Claiming the only row. */
  lemma DemoClaim(job: Job, now: int, claims: map<ClaimRef, Job>, nextBatch: nat, h: Tally)
    ensures DoClaim(DemoQueue(job, now, claims, nextBatch, h), {0}) ==
            DemoQueue(ClaimRow(job, now), now, claims[ClaimRef(nextBatch, 0) := ClaimRow(job, now)], nextBatch + 1, h.(claims := h.claims + 1))
  {
    hide ClaimRow;
    DemoClaimedRow(job, now, claims, nextBatch, h);
    DemoClaimRef(job, now, claims, nextBatch, h);
  }

  lemma DemoClaimedRow(job: Job, now: int, claims: map<ClaimRef, Job>, nextBatch: nat, h: Tally)
    ensures var q' := DoClaim(DemoQueue(job, now, claims, nextBatch, h), {0});
            q'.table.jobs == map[0 := ClaimRow(job, now)] && q'.tally == map[0 := h.(claims := h.claims + 1)]
  {
    hide ClaimRow;
  }

  lemma DemoClaimRef(job: Job, now: int, claims: map<ClaimRef, Job>, nextBatch: nat, h: Tally)
    ensures DoClaim(DemoQueue(job, now, claims, nextBatch, h), {0}).claims == claims[ClaimRef(nextBatch, 0) := ClaimRow(job, now)]
  {
    hide ClaimRow;
  }

  lemma DemoFirstClaim()
    ensures DemoMove(1, Claim(1, {}, {0}))
  {
    hide DoClaim;
    DemoClaim(DEMO_PENDING, 0, map[], 0, Tally(0, 0, 0, 0, 0, 0));
    assert Claimable(DemoAfter(1).table, 0, {}) == {0};
  }

  lemma DemoSecondClaim()
    ensures DemoMove(4, Claim(1, {}, {0}))
  {
    hide DoClaim;
    DemoClaim(DEMO_RESET, 11, map[ClaimRef(0, 0) := DEMO_FIRST], 1, Tally(0, 1, 0, 0, 0, 1));
    assert Claimable(DemoAfter(4).table, 11, {}) == {0};
  }

  lemma DemoTick()
    ensures DemoMove(2, Tick(11))
  {
  }

  lemma DemoRecover()
    ensures DemoMove(3, Recover(1))
  {
    var q' := DoRecover(DemoAfter(3), 1);
    assert Stale(DemoAfter(3).table, 1) == {0};
    assert q'.table.jobs == DemoAfter(4).table.jobs && q'.tally == DemoAfter(4).tally;
  }

  lemma DemoSucceed()
    ensures DemoMove(5, Succeed(ClaimRef(1, 0)))
  {
  }

  lemma DemoStep(n: nat)
    requires n < 6
    ensures DemoMove(n, DemoEvents()[n])
  {
    match n
    case 0 => DemoInsert();
    case 1 => DemoFirstClaim();
    case 2 => DemoTick();
    case 3 => DemoRecover();
    case 4 => DemoSecondClaim();
    case _ => DemoSucceed();
  }

  lemma {:induction false} DemoRun(n: nat)
    requires n <= 6
    ensures ValidRun(DemoAfter(n), DemoEvents()[n..], 10) && RunTo(DemoAfter(n), DemoEvents()[n..]) == DemoAfter(6)
    decreases 6 - n
  {
    if n < 6 {
      DemoStep(n);
      DemoRun(n + 1);
      assert DemoEvents()[n..][0] == DemoEvents()[n] && DemoEvents()[n..][1..] == DemoEvents()[n + 1..];
    }
  }

  /**
    Without the hypothesis the guarantee is lost: a valid run finishes the job, and
    then the first worker's late failure report puts the succeeded row back to pending.
   */
  lemma LateFailureRevivesFinishedRow(late: Event)
    requires late == Fail(ClaimRef(0, 0), true, 30, "late")
    ensures Initial(DemoAfter(0)) && ValidRun(DemoAfter(0), DemoEvents(), 10)
    ensures var done := RunTo(DemoAfter(0), DemoEvents());
            && Enabled(done, late, 10)
            && 0 in done.table.jobs && done.table.jobs[0].status == Succeeded
            && 0 in Apply(done, late).table.jobs && Apply(done, late).table.jobs[0].status == Pending
  {
    hide RunTo, ValidRun, DemoEvents;
    DemoRun(0);
    assert DemoEvents()[0..] == DemoEvents();
  }
}
