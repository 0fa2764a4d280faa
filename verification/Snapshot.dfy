/**
  The realtime snapshot buffer (internal/realtime/snapshot.go): Observe keeps the latest
  event per key, Flush hands the buffer to a sink outside the lock and puts it back when
  the sink fails.
 */
module Snapshot {
  import opened Wrappers
  import opened Text
  import opened Decimal

  /** `eventTime` 0 is the zero time. */
  datatype Event = Event(
    kind: string,
    exchange: string,
    sourceSymbol: string,
    symbolId: int,
    eventTime: nat,
    payload: string)

  /** LatestKey; None is the error. */
  function Key(e: Event): Option<string> {
    var kind := Lower(Trim(e.kind));
    if kind == "aggregate" then
      if e.symbolId <= 0 then None else Some("deriv:latest:aggregate:" + Itoa(e.symbolId))
    else if kind == "market" || kind == "oi" || kind == "funding" || kind == "orderbook_imbalance" then
      Some("deriv:latest:" + kind + ":" + Lower(Trim(e.exchange)) + ":" + Upper(Trim(e.sourceSymbol)))
    else None
  }

  const SYMBOL_KINDS: set<string> := {"market", "oi", "funding", "orderbook_imbalance"}

  function KindOf(e: Event): string { Lower(Trim(e.kind)) }

  /** Aggregates are kept per symbol id, the other kinds per exchange and symbol; anything else has no key. */
  lemma KeyedIff(e: Event)
    ensures Key(e).Some? <==> KindOf(e) in SYMBOL_KINDS || (KindOf(e) == "aggregate" && 1 <= e.symbolId)
    ensures Key(e).Some? ==>
            Key(e).value == "deriv:latest:" + (KindOf(e) + ":" +
              if KindOf(e) == "aggregate" then Itoa(e.symbolId) else Lower(Trim(e.exchange)) + ":" + Upper(Trim(e.sourceSymbol)))
  {
    hide Trim, Lower, Upper, Itoa;
    if KindOf(e) == "aggregate" {
      assert "deriv:latest:aggregate:" + Itoa(e.symbolId) == "deriv:latest:" + ("aggregate" + ":" + Itoa(e.symbolId));
    } else if Key(e).Some? {
      var x, y := Lower(Trim(e.exchange)), Upper(Trim(e.sourceSymbol));
      assert "deriv:latest:" + KindOf(e) + ":" + x + ":" + y == "deriv:latest:" + (KindOf(e) + ":" + (x + ":" + y));
    }
  }

  /** Two events replace each other in the buffer exactly when they are of one kind and about the same thing. */
  lemma ReplacesIff(a: Event, b: Event)
    requires Key(a).Some? && Key(b).Some? && ColonFree(a.exchange) && ColonFree(b.exchange)
    ensures Key(a) == Key(b) <==>
            && KindOf(a) == KindOf(b)
            && (if KindOf(a) == "aggregate" then a.symbolId == b.symbolId
                else Lower(Trim(a.exchange)) == Lower(Trim(b.exchange)) && Lower(Trim(a.sourceSymbol)) == Lower(Trim(b.sourceSymbol)))
  {
    hide Trim, Lower, Upper, Itoa, ColonFree, Key;
    KeyedIff(a);
    KeyedIff(b);
    KindsAreColonFree();
    NormalColonFree(a.exchange);
    NormalColonFree(b.exchange);
    SameUpToCase(Trim(a.sourceSymbol), Trim(b.sourceSymbol));
    if Key(a) == Key(b) {
      var x, y := Key(a).value[|"deriv:latest:"|..], Key(b).value[|"deriv:latest:"|..];
      var p := if KindOf(a) == "aggregate" then Itoa(a.symbolId) else Lower(Trim(a.exchange)) + ":" + Upper(Trim(a.sourceSymbol));
      var q := if KindOf(b) == "aggregate" then Itoa(b.symbolId) else Lower(Trim(b.exchange)) + ":" + Upper(Trim(b.sourceSymbol));
      assert x == KindOf(a) + ":" + p && y == KindOf(b) + ":" + q;
      SplitAtColon(KindOf(a), p, KindOf(b), q);
      if KindOf(a) == "aggregate" {
        ItoaInjective(a.symbolId, b.symbolId);
      } else {
        SplitAtColon(Lower(Trim(a.exchange)), Upper(Trim(a.sourceSymbol)), Lower(Trim(b.exchange)), Upper(Trim(b.sourceSymbol)));
      }
    }
  }

  lemma KindsAreColonFree()
    ensures ColonFree("aggregate") && forall kind :: kind in SYMBOL_KINDS ==> ColonFree(kind)
  {
  }

  type Buffer = map<string, Event>

  function Stamped(e: Event, now: nat): Event {
    if e.eventTime == 0 then e.(eventTime := now) else e
  }

  function Observed(buffer: Buffer, e: Event, now: nat): Buffer {
    match Key(e)
    case None => buffer
    case Some(key) => buffer[key := Stamped(e, now)]
  }

  // ------------------------------------------------------ concurrent flushes as steps

  /** Flushes between their take and their sink's answer; `next` numbers them. */
  datatype State = State(buffer: Buffer, flights: map<nat, Buffer>, next: nat)

  datatype Step =
    | Observe(event: Event, now: nat)
    | Take
    | Succeed(id: nat)
    | Fail(id: nat)

  function Apply(s: State, step: Step): State {
    match step
    case Observe(e, now) => s.(buffer := Observed(s.buffer, e, now))
    case Take =>
      if s.buffer == map[] then s
      else State(map[], s.flights[s.next := s.buffer], s.next + 1)
    case Succeed(id) => s.(flights := s.flights - {id})
    case Fail(id) =>
      if id in s.flights then s.(buffer := s.buffer + s.flights[id], flights := s.flights - {id}) else s
  }

  function RunTo(s: State, steps: seq<Step>): State
    decreases steps
  {
    if steps == [] then s else RunTo(Apply(s, steps[0]), steps[1..])
  }

  ghost predicate Numbered(s: State) { forall id :: id in s.flights ==> id < s.next }

  /** A flush that began after the first `earlier` ones delivers the key. */
  predicate Delivers(s: State, step: Step, key: string, earlier: nat) {
    step.Succeed? && step.id in s.flights && earlier <= step.id && key in s.flights[step.id]
  }

  predicate NeverDelivered(s: State, steps: seq<Step>, key: string, earlier: nat)
    decreases steps
  {
    steps == [] || (!Delivers(s, steps[0], key, earlier) && NeverDelivered(Apply(s, steps[0]), steps[1..], key, earlier))
  }

  /** The key waits in the buffer or in a flush that began after the first `earlier` ones. */
  ghost predicate Waiting(s: State, key: string, earlier: nat) {
    key in s.buffer || exists id :: id in s.flights && earlier <= id && key in s.flights[id]
  }

  lemma StepKeepsWaiting(s: State, step: Step, key: string, earlier: nat)
    requires Numbered(s) && earlier <= s.next && Waiting(s, key, earlier) && !Delivers(s, step, key, earlier)
    ensures var s' := Apply(s, step); Numbered(s') && earlier <= s'.next && Waiting(s', key, earlier)
  {
    hide Key;
    var s' := Apply(s, step);
    if key in s.buffer {
      if step.Take? { assert s.next in s'.flights && key in s'.flights[s.next]; }
    } else {
      var id :| id in s.flights && earlier <= id && key in s.flights[id];
      if !(step.Fail? && step.id == id) { assert id in s'.flights && s'.flights[id] == s.flights[id]; }
    }
  }

  lemma {:induction false} RunKeepsWaiting(s: State, steps: seq<Step>, key: string, earlier: nat)
    requires Numbered(s) && earlier <= s.next && Waiting(s, key, earlier) && NeverDelivered(s, steps, key, earlier)
    ensures Waiting(RunTo(s, steps), key, earlier)
    decreases steps
  {
    hide Apply, Waiting;
    if steps != [] {
      StepKeepsWaiting(s, steps[0], key, earlier);
      RunKeepsWaiting(Apply(s, steps[0]), steps[1..], key, earlier);
    }
  }

  /**
    In every interleaving, an observed key stays in the buffer or in flight until a flush
    that began after the observation has delivered it.
   */
  lemma ObservedKeyIsKept(s: State, e: Event, now: nat, key: string, rest: seq<Step>)
    requires Numbered(s) && Key(e) == Some(key)
    requires NeverDelivered(Apply(s, Observe(e, now)), rest, key, s.next)
    ensures Waiting(RunTo(s, [Observe(e, now)] + rest), key, s.next)
  {
    hide Key, NeverDelivered;
    var steps := [Observe(e, now)] + rest;
    assert steps[0] == Observe(e, now) && steps[1..] == rest;
    var s' := Apply(s, Observe(e, now));
    RunKeepsWaiting(s', rest, key, s.next);
    assert RunTo(s, steps) == RunTo(s', rest);
  }

  // ------------------------------------------------------------ putting a batch back

  predicate Quiet(step: Step, id: nat) {
    !step.Observe? && !step.Fail? && step != Succeed(id)
  }

  lemma {:induction false} QuietKeepsFlight(s: State, steps: seq<Step>, id: nat)
    requires s.buffer == map[] && id in s.flights && Numbered(s) && forall i :: 0 <= i < |steps| ==> Quiet(steps[i], id)
    ensures var s' := RunTo(s, steps); s'.buffer == map[] && id in s'.flights && s'.flights[id] == s.flights[id]
    decreases steps
  {
    if steps != [] {
      forall i | 0 <= i < |steps[1..]| ensures Quiet(steps[1..][i], id) { assert steps[1..][i] == steps[i + 1]; }
      QuietKeepsFlight(Apply(s, steps[0]), steps[1..], id);
    }
  }

  /** With no Observe and no other failure between, a failed flush restores the buffer exactly. */
  lemma FailedFlushRestores(s: State, between: seq<Step>)
    requires s.buffer != map[] && Numbered(s) && forall i :: 0 <= i < |between| ==> Quiet(between[i], s.next)
    ensures Apply(RunTo(Apply(s, Take), between), Fail(s.next)).buffer == s.buffer
  {
    QuietKeepsFlight(Apply(s, Take), between, s.next);
    assert map[] + s.buffer == s.buffer;
  }

  function ObservedAll(buffer: Buffer, es: seq<(Event, nat)>): Buffer {
    if es == [] then buffer
    else var last := es[|es| - 1]; Observed(ObservedAll(buffer, es[..|es| - 1]), last.0, last.1)
  }

  /** What a failed flush leaves. */
  function PutBack(batch: Buffer, since: seq<(Event, nat)>): Buffer { ObservedAll(map[], since) + batch }

  // --------------------------------------------------------------- the newest event

  const IDLE := State(map[], map[], 0)

  /** A new worker after these steps. */
  function After(steps: seq<Step>): State {
    if steps == [] then IDLE else Apply(After(steps[..|steps| - 1]), steps[|steps| - 1])
  }

  /** The last event observed of a key. */
  function LastSeen(steps: seq<Step>, key: string): Option<Event> {
    if steps == [] then None
    else
      var last := steps[|steps| - 1];
      if last.Observe? && Key(last.event) == Some(key) then Some(Stamped(last.event, last.now))
      else LastSeen(steps[..|steps| - 1], key)
  }

  /** What waits is the last event observed of its key. */
  ghost predicate Newest(steps: seq<Step>) {
    forall key :: key in After(steps).buffer ==> LastSeen(steps, key) == Some(After(steps).buffer[key])
  }

  /** Step `t` takes a batch, numbered `id`. */
  predicate Takes(steps: seq<Step>, t: nat, id: nat) {
    t < |steps| && steps[t] == Take && After(steps[..t]).next == id && After(steps[..t]).buffer != map[]
  }

  /** Step `f` puts batch `id` back. */
  predicate PutsBack(steps: seq<Step>, f: nat, id: nat) {
    f < |steps| && steps[f] == Fail(id) && id in After(steps[..f]).flights
  }

  /**
    A batch that fails: of each of its keys, the last event observed between its take and
    its failure, if there is one, is the very event in the batch.
   */
  ghost predicate FailsInTime(steps: seq<Step>, t: nat, f: nat)
    requires t < f < |steps|
  {
    forall key :: key in After(steps[..t]).buffer && LastSeen(steps[t + 1..f], key).Some? ==>
      LastSeen(steps[t + 1..f], key) == Some(After(steps[..t]).buffer[key])
  }

  ghost predicate AllFailInTime(steps: seq<Step>) {
    forall t: nat, f: nat, id: nat :: t < f && Takes(steps, t, id) && PutsBack(steps, f, id) ==> FailsInTime(steps, t, f)
  }

  lemma AfterSnoc(steps: seq<Step>, n: nat)
    requires n < |steps|
    ensures After(steps[..n + 1]) == Apply(After(steps[..n]), steps[n])
  {
    hide Apply;
    assert steps[..n + 1][..n] == steps[..n];
  }

  lemma {:induction false} LastSeenAppend(a: seq<Step>, b: seq<Step>, key: string)
    ensures LastSeen(a + b, key) == if LastSeen(b, key).Some? then LastSeen(b, key) else LastSeen(a, key)
  {
    hide Key;
    if b == [] {
      assert a + b == a;
    } else {
      assert (a + b)[..|a + b| - 1] == a + b[..|b| - 1];
      LastSeenAppend(a, b[..|b| - 1], key);
    }
  }

  /** A batch in flight is the buffer of the one step that took it. */
  lemma {:induction false} FlightHasTake(steps: seq<Step>, id: nat) returns (t: nat)
    requires id in After(steps).flights
    ensures Takes(steps, t, id) && After(steps).flights[id] == After(steps[..t]).buffer
  {
    var n := |steps| - 1;
    AfterSnoc(steps, n);
    assert steps[..n + 1] == steps;
    if steps[n] == Take && After(steps[..n]).next == id && After(steps[..n]).buffer != map[] {
      t := n;
    } else {
      t := FlightHasTake(steps[..n], id);
      assert steps[..n][..t] == steps[..t];
    }
  }

  /** A step after the take of `id`: the number stays used, and the batch can only leave. */
  lemma FlightStep(s: State, step: Step, id: nat)
    requires id < s.next
    ensures var s' := Apply(s, step);
            id < s'.next && (id in s'.flights ==> id in s.flights && s'.flights[id] == s.flights[id])
  {
    hide Key;
  }

  /** What a take has put in flight stays the same batch as long as it is in flight. */
  lemma {:induction false} FlightIsBatch(steps: seq<Step>, t: nat, id: nat)
    requires Takes(steps, t, id)
    ensures id < After(steps).next && (id in After(steps).flights ==> After(steps).flights[id] == After(steps[..t]).buffer)
  {
    hide Apply;
    var n := |steps| - 1;
    AfterSnoc(steps, n);
    assert steps[..n + 1] == steps;
    if t < n {
      assert steps[..n][..t] == steps[..t];
      FlightIsBatch(steps[..n], t, id);
      FlightStep(After(steps[..n]), steps[n], id);
    } else {
      TakeStep(After(steps[..t]));
    }
  }

  lemma TakeStep(s: State)
    requires s.buffer != map[]
    ensures var s' := Apply(s, Take); s'.next == s.next + 1 && s.next in s'.flights && s'.flights[s.next] == s.buffer
  {
  }

  /** Putting a batch back keeps the newest events exactly when the batch fails in time. */
  lemma FailKeepsNewestIff(steps: seq<Step>, t: nat, f: nat, id: nat)
    requires t < f < |steps| && Takes(steps, t, id) && PutsBack(steps, f, id) && Newest(steps[..t]) && Newest(steps[..f])
    ensures Newest(steps[..f + 1]) <==> FailsInTime(steps, t, f)
  {
    hide Key, After, Takes;
    var s, batch := After(steps[..f]), After(steps[..t]).buffer;
    AfterSnoc(steps, f);
    assert steps[..f][..t] == steps[..t];
    TakesInPrefix(steps, t, f, id);
    FlightIsBatch(steps[..f], t, id);
    assert After(steps[..f + 1]).buffer == s.buffer + batch;
    forall key ensures LastSeen(steps[..f + 1], key) == LastSeen(steps[..f], key) { assert steps[..f + 1][..f] == steps[..f]; }
    forall key ensures LastSeen(steps[..f], key) ==
                       if LastSeen(steps[t + 1..f], key).Some? then LastSeen(steps[t + 1..f], key) else LastSeen(steps[..t], key)
    {
      assert steps[..f] == steps[..t + 1] + steps[t + 1..f] && steps[..t + 1][..t] == steps[..t];
      LastSeenAppend(steps[..t + 1], steps[t + 1..f], key);
      TakeObservesNothing(steps, t, id);
    }
    if Newest(steps[..f + 1]) {
      forall key | key in batch ensures LastSeen(steps[..f], key) == Some(batch[key]) {
        assert After(steps[..f + 1]).buffer[key] == batch[key];
      }
    }
  }

  lemma TakeObservesNothing(steps: seq<Step>, t: nat, id: nat)
    requires Takes(steps, t, id)
    ensures steps[t] == Take
  {
  }

  lemma TakesInPrefix(steps: seq<Step>, t: nat, f: nat, id: nat)
    requires t < f <= |steps|
    ensures Takes(steps[..f], t, id) <==> Takes(steps, t, id)
  {
    assert steps[..f][..t] == steps[..t];
  }

  lemma OtherStepKeepsNewest(steps: seq<Step>, n: nat)
    requires n < |steps| && Newest(steps[..n]) && !(steps[n].Fail? && steps[n].id in After(steps[..n]).flights)
    ensures Newest(steps[..n + 1])
  {
    hide Key, After;
    AfterSnoc(steps, n);
    assert steps[..n + 1][..n] == steps[..n];
  }

  ghost predicate AlwaysNewest(steps: seq<Step>) { forall n :: 0 <= n <= |steps| ==> Newest(steps[..n]) }

  /**
    In every interleaving of observations and any number of flushes in flight, the buffer
    holds the last event of each of its keys all along exactly when every batch that fails
    does so in time.
   */
  lemma AlwaysNewestIff(steps: seq<Step>)
    ensures AlwaysNewest(steps) <==> AllFailInTime(steps)
  {
    hide Newest, After, Takes, FailsInTime;
    if AlwaysNewest(steps) {
      forall t: nat, f: nat, id: nat | t < f && Takes(steps, t, id) && PutsBack(steps, f, id) ensures FailsInTime(steps, t, f) {
        FailKeepsNewestIff(steps, t, f, id);
      }
    }
    if AllFailInTime(steps) {
      forall n | 0 <= n <= |steps| ensures Newest(steps[..n]) { NewestUpTo(steps, n); }
    }
  }

  lemma {:induction false} NewestUpTo(steps: seq<Step>, n: nat)
    requires n <= |steps| && AllFailInTime(steps)
    ensures forall i :: 0 <= i <= n ==> Newest(steps[..i])
  {
    hide Newest, After, Takes, FailsInTime;
    if n == 0 {
      NothingWaits();
      assert steps[..0] == [];
    } else {
      var f := n - 1;
      NewestUpTo(steps, f);
      if steps[f].Fail? && steps[f].id in After(steps[..f]).flights {
        var id := steps[f].id;
        var t := FlightHasTake(steps[..f], id);
        TakeIsInside(steps[..f], t, id);
        TakesInPrefix(steps, t, f, id);
        FailKeepsNewestIff(steps, t, f, id);
      } else {
        OtherStepKeepsNewest(steps, f);
      }
    }
  }

  lemma NothingWaits()
    ensures Newest([])
  {
  }

  lemma TakeIsInside(steps: seq<Step>, t: nat, id: nat)
    requires Takes(steps, t, id)
    ensures t < |steps|
  {
  }

  /** From any state: take a batch, observe another event of one of its keys, fail; the older event is back. */
  lemma OlderEventComesBack(s: State, e: Event, now: nat, key: string)
    requires Key(e) == Some(key) && key in s.buffer && s.buffer[key] != Stamped(e, now)
    ensures var end := RunTo(s, [Take, Observe(e, now), Fail(s.next)]);
            key in end.buffer && end.buffer[key] == s.buffer[key] != Stamped(e, now)
  {
    hide Key;
    var steps := [Take, Observe(e, now), Fail(s.next)];
    assert steps[1..] == [Observe(e, now), Fail(s.next)] && steps[1..][1..] == [Fail(s.next)] && steps[1..][1..][1..] == [];
    var s1 := Apply(s, Take);
    var s2 := Apply(s1, Observe(e, now));
    var s3 := Apply(s2, Fail(s.next));
    assert RunTo(s3, []) == s3;
    assert RunTo(s2, [Fail(s.next)]) == s3;
    assert RunTo(s1, steps[1..]) == s3;
    assert RunTo(s, steps) == s3;
  }

  // ------------------------------------------------------------------- the worker

  /** Each event is stored under its own key. */
  ghost predicate Keyed(buffer: Buffer) { forall key :: key in buffer ==> Key(buffer[key]) == Some(key) }

  /** The events list the buffer's values, each once. */
  ghost predicate Lists(events: seq<Event>, buffer: Buffer) {
    && |events| == |buffer|
    && (forall i :: 0 <= i < |events| ==> exists key :: key in buffer && buffer[key] == events[i])
    && (forall key :: key in buffer ==> buffer[key] in events)
  }

  function PutAll(buffer: Buffer, events: seq<Event>): Buffer {
    if events == [] then buffer
    else
      var init, last := PutAll(buffer, events[..|events| - 1]), events[|events| - 1];
      if Key(last).Some? then init[Key(last).value := last] else init
  }

  lemma {:induction false} PutAllAt(buffer: Buffer, events: seq<Event>, batch: Buffer, key: string)
    requires Keyed(batch) && forall i :: 0 <= i < |events| ==> exists own :: own in batch && batch[own] == events[i]
    ensures key in PutAll(buffer, events) <==> key in buffer || (key in batch && batch[key] in events)
    ensures key in PutAll(buffer, events) ==>
      PutAll(buffer, events)[key] == if key in batch && batch[key] in events then batch[key] else buffer[key]
  {
    hide Key;
    if events != [] {
      var init, last := events[..|events| - 1], events[|events| - 1];
      PutAllAt(buffer, init, batch, key);
      assert events == init + [last];
      var own :| own in batch && batch[own] == last;
      assert key in batch && batch[key] == last ==> key == own;
    }
  }

  /** Putting a listed batch back, in any order, is a map update with the batch. */
  lemma PutAllIsUpdate(buffer: Buffer, events: seq<Event>, batch: Buffer)
    requires Keyed(batch) && Lists(events, batch)
    ensures PutAll(buffer, events) == buffer + batch
  {
    hide Key, PutAll;
    forall key ensures key in PutAll(buffer, events) <==> key in buffer + batch {
      PutAllAt(buffer, events, batch, key);
    }
    forall key | key in buffer + batch ensures PutAll(buffer, events)[key] == (buffer + batch)[key] {
      PutAllAt(buffer, events, batch, key);
    }
  }

  lemma UpdateIsKeyed(buffer: Buffer, batch: Buffer)
    requires Keyed(buffer) && Keyed(batch)
    ensures Keyed(buffer + batch)
  {
  }

  class Worker {
    var latest: Buffer

    constructor ()
      ensures latest == map[]
    {
      latest := map[];
    }

    method Observe(e: Event, now: nat)
      requires Keyed(latest)
      modifies this
      ensures latest == Observed(old(latest), e, now) && Keyed(latest)
      ensures Key(e).Some? ==>
        Key(e).value in latest && latest[Key(e).value] == e.(eventTime := if e.eventTime >= 1 then e.eventTime else now)
    {
      hide Trim, Lower, Itoa, Upper;
      var event := e;
      if event.eventTime == 0 {
        event := event.(eventTime := now);
      }
      var key := Key(event);
      if key.None? {
        return;
      }
      latest := latest[key.value := event];
    }

    /** Flush up to the sink call, under the lock. */
    method TakeBatch() returns (events: seq<Event>)
      modifies this
      ensures latest == map[] && Lists(events, old(latest))
    {
      events := [];
      var rest := latest;
      while rest != map[]
        invariant rest.Keys <= latest.Keys && (forall key :: key in rest ==> rest[key] == latest[key])
        invariant |events| + |rest| == |latest|
        invariant forall i :: 0 <= i < |events| ==> exists key :: key in latest && latest[key] == events[i]
        invariant forall key :: key in latest && key !in rest ==> latest[key] in events
        invariant latest == old(latest)
        decreases |rest|
      {
        assert rest.Keys != {};
        var key :| key in rest.Keys;
        events := events + [rest[key]];
        ghost var before := rest;
        rest := rest - {key};
        assert rest.Keys == before.Keys - {key};
        assert |rest| == |rest.Keys| && |before| == |before.Keys|;
      }
      latest := map[];
    }

    /** Flush after a failed sink call, under the lock again. */
    method PutBackBatch(events: seq<Event>, ghost batch: Buffer)
      requires Keyed(batch) && Lists(events, batch) && Keyed(latest)
      modifies this
      ensures latest == old(latest) + batch && Keyed(latest)
    {
      hide Key, Keyed, Lists;
      var i := 0;
      while i < |events|
        invariant 0 <= i <= |events| && latest == PutAll(old(latest), events[..i])
      {
        assert events[..i + 1][..i] == events[..i];
        var key := Key(events[i]);
        if key.Some? {
          latest := latest[key.value := events[i]];
        }
        i := i + 1;
      }
      assert events[..i] == events;
      PutAllIsUpdate(old(latest), events, batch);
      UpdateIsKeyed(old(latest), batch);
    }

    /** Flush, with the observations that reach the worker while the sink runs. */
    method Flush(sinkFails: bool, during: seq<(Event, nat)>) returns (written: nat)
      requires Keyed(latest)
      modifies this
      ensures Keyed(latest)
      ensures written == if sinkFails then 0 else |old(latest)|
      ensures latest == if sinkFails then PutBack(old(latest), during) else ObservedAll(map[], during)
    {
      hide Key;
      ghost var batch := latest;
      var events := TakeBatch();
      var i := 0;
      while i < |during|
        invariant 0 <= i <= |during| && Keyed(latest)
        invariant latest == ObservedAll(map[], during[..i])
      {
        assert during[..i + 1][..i] == during[..i];
        Observe(during[i].0, during[i].1);
        i := i + 1;
      }
      assert during[..i] == during;
      if sinkFails {
        PutBackBatch(events, batch);
        written := 0;
      } else {
        written := |events|;
      }
    }
  }
}
