/**
  The per-key circuit breaker of internal/ratelimit/circuit_breaker.go.  Each call under
  the mutex is one event at an instant of the breaker's clock.
 */
module CircuitBreaker {
  import opened Wrappers
  import opened Text

  datatype State = Closed | Open | HalfOpen

  datatype Circuit = Circuit(state: State, failures: nat, lastFailure: string, openUntil: int, halfOpenPasses: nat)

  datatype Settings = Settings(failureThreshold: int, cooldown: int, halfOpenMaxPasses: int)

  datatype Event = Allow(now: int) | Success | Failure(now: int, kind: string)

  /** The zero time.Time. */
  const NEVER := 0

  const FRESH := Circuit(Closed, 0, "", NEVER, 0)

  /** NewCircuitBreaker's defaults; the cooldown is in nanoseconds. */
  function Normalized(s: Settings): Settings {
    Settings(if s.failureThreshold <= 0 then 5 else s.failureThreshold,
             if s.cooldown <= 0 then 30_000_000_000 else s.cooldown,
             if s.halfOpenMaxPasses <= 0 then 1 else s.halfOpenMaxPasses)
  }

  predicate ValidSettings(s: Settings) {
    s.failureThreshold >= 1 && s.cooldown >= 1 && s.halfOpenMaxPasses >= 1
  }

  // ----------------------------------------------------------------------- the steps

  /** Allow answers with an error. */
  predicate Refuses(c: Circuit, now: int) {
    c.state == Open && now < c.openUntil
  }

  function AfterAllow(c: Circuit, now: int): Circuit {
    if c.state == Open && !Refuses(c, now) then c.(state := HalfOpen, halfOpenPasses := 0) else c
  }

  function AfterSuccess(s: Settings, c: Circuit): Circuit {
    if c.state == HalfOpen then
      if c.halfOpenPasses + 1 >= s.halfOpenMaxPasses then Circuit(Closed, 0, "", NEVER, c.halfOpenPasses + 1)
      else c.(halfOpenPasses := c.halfOpenPasses + 1)
    else c.(failures := 0, lastFailure := "")
  }

  function AfterFailure(s: Settings, c: Circuit, now: int, kind: string): Circuit {
    var counted := c.(failures := c.failures + 1, lastFailure := kind);
    if c.state == HalfOpen || counted.failures >= s.failureThreshold then
      counted.(state := Open, openUntil := now + s.cooldown, halfOpenPasses := 0)
    else counted
  }

  function Step(s: Settings, c: Circuit, e: Event): Circuit {
    match e
    case Allow(now) => AfterAllow(c, now)
    case Success => AfterSuccess(s, c)
    case Failure(now, kind) => AfterFailure(s, c, now, kind)
  }

  function Run(s: Settings, c: Circuit, es: seq<Event>): Circuit {
    if es == [] then c else Step(s, Run(s, c, es[..|es| - 1]), es[|es| - 1])
  }

  /** The clock reads at least `from` throughout and never steps back; RecordSuccess does not read it. */
  predicate Clocked(from: int, es: seq<Event>) {
    && (forall i :: 0 <= i < |es| && !es[i].Success? ==> from <= es[i].now)
    && (forall i, j :: 0 <= i < j < |es| && !es[i].Success? && !es[j].Success? ==> es[i].now <= es[j].now)
  }

  // ------------------------------------------------------------- while a circuit is open

  /**
    Once a failure at `t` has opened a circuit, every Allow before t + cooldown is refused,
    whatever is recorded in between.
   */
  lemma {:induction false} OpenRefusesUntilCooldown(s: Settings, c: Circuit, t: int, kind: string, es: seq<Event>, now: int)
    requires ValidSettings(s)
    requires AfterFailure(s, c, t, kind).state == Open && AfterFailure(s, c, t, kind).openUntil == t + s.cooldown
    requires Clocked(t, es + [Allow(now)]) && now < t + s.cooldown
    ensures Refuses(Run(s, AfterFailure(s, c, t, kind), es), now)
  {
    StaysOpen(s, AfterFailure(s, c, t, kind), t, es, now);
  }

  lemma {:induction false} StaysOpen(s: Settings, c: Circuit, t: int, es: seq<Event>, now: int)
    requires ValidSettings(s) && c.state == Open && t + s.cooldown <= c.openUntil
    requires Clocked(t, es + [Allow(now)]) && now < t + s.cooldown
    ensures Run(s, c, es).state == Open && t + s.cooldown <= Run(s, c, es).openUntil
  {
    if es != [] {
      var init, last := es[..|es| - 1], es[|es| - 1];
      var all, shorter := es + [Allow(now)], init + [Allow(now)];
      assert forall i :: 0 <= i < |es| ==> all[i] == es[i];
      assert forall i :: 0 <= i < |init| ==> shorter[i] == all[i];
      assert all[|es|] == Allow(now) && shorter[|init|] == Allow(now);
      assert !last.Success? ==> t <= all[|es| - 1].now <= all[|es|].now;
      StaysOpen(s, c, t, init, now);
    }
  }

  // ------------------------------------------------------------- from closed to open

  /** Failures since the last success, or since the start; Allow calls do not interrupt them. */
  function Streak(es: seq<Event>): nat {
    if es == [] then 0
    else
      match es[|es| - 1]
      case Failure(_, _) => Streak(es[..|es| - 1]) + 1
      case Success => 0
      case Allow(_) => Streak(es[..|es| - 1])
  }

  /** No proper prefix of the events has reached the threshold. */
  ghost predicate NotBefore(es: seq<Event>, limit: int, count: seq<Event> -> nat) {
    forall k :: 0 <= k < |es| ==> count(es[..k]) < limit
  }

  /**
    From the moment a circuit closes (or is created) it opens exactly on the
    failureThreshold-th consecutive failure, for a cooldown from that instant.
   */
  lemma {:induction false} OpensExactlyAtThreshold(s: Settings, c: Circuit, es: seq<Event>)
    requires ValidSettings(s) && c.state == Closed && c.failures == 0
    requires NotBefore(es, s.failureThreshold, Streak)
    ensures var c' := Run(s, c, es);
            && c'.state != HalfOpen
            && c'.failures == Streak(es)
            && (c'.state == Open <==> Streak(es) == s.failureThreshold)
            && (c'.state == Open ==> es[|es| - 1].Failure? && c'.openUntil == es[|es| - 1].now + s.cooldown)
  {
    if es != [] {
      var init := es[..|es| - 1];
      assert forall k :: 0 <= k < |init| ==> init[..k] == es[..k];
      assert Streak(es[..|es| - 1]) < s.failureThreshold;
      OpensExactlyAtThreshold(s, c, init);
    }
  }

  // -------------------------------------------------------------- from half-open onwards

  /** Successes recorded, as long as none of the events is a failure. */
  function Passes(es: seq<Event>): nat {
    if es == [] then 0 else Passes(es[..|es| - 1]) + (if es[|es| - 1].Success? then 1 else 0)
  }

  predicate NoFailure(es: seq<Event>) {
    forall i :: 0 <= i < |es| ==> !es[i].Failure?
  }

  /**
    From the moment a circuit turns half-open, while nothing has decided it yet: a failure
    reopens it for a full cooldown, and it closes exactly on the
    halfOpenMaxPasses-th success without a failure in between.
   */
  lemma {:induction false} HalfOpenDecides(s: Settings, c: Circuit, es: seq<Event>)
    requires ValidSettings(s) && c.state == HalfOpen && c.halfOpenPasses == 0
    requires NotBefore(es, s.halfOpenMaxPasses, Passes) && (es != [] ==> NoFailure(es[..|es| - 1]))
    ensures var c' := Run(s, c, es);
            if NoFailure(es) then
              && (c'.state == Closed <==> Passes(es) == s.halfOpenMaxPasses)
              && (c'.state == Closed ==> c'.failures == 0)
              && (c'.state != Closed ==> c'.state == HalfOpen && c'.halfOpenPasses == Passes(es))
            else es[|es| - 1].Failure? && c'.state == Open && c'.openUntil == es[|es| - 1].now + s.cooldown
  {
    hide Step;
    if es != [] {
      var init := es[..|es| - 1];
      assert forall k :: 0 <= k < |init| ==> init[..k] == es[..k];
      assert forall i :: 0 <= i < |init| ==> init[i] == es[i];
      assert Passes(es[..|es| - 1]) < s.halfOpenMaxPasses;
      HalfOpenDecides(s, c, init);
      HalfOpenStep(s, Run(s, c, init), es[|es| - 1]);
    }
  }

  /** One event in the half-open state. */
  lemma HalfOpenStep(s: Settings, c: Circuit, e: Event)
    requires ValidSettings(s) && c.state == HalfOpen && c.halfOpenPasses < s.halfOpenMaxPasses
    ensures var c' := Step(s, c, e);
            match e
            case Allow(_) => c' == c
            case Success =>
              if c.halfOpenPasses + 1 == s.halfOpenMaxPasses then c'.state == Closed && c'.failures == 0 && c'.lastFailure == ""
              else c'.state == HalfOpen && c'.halfOpenPasses == c.halfOpenPasses + 1
            case Failure(now, _) => c'.state == Open && c'.openUntil == now + s.cooldown
  {
  }

  /** An open circuit turns half-open at the first Allow from its deadline on, and only there. */
  lemma HalfOpensOnlyOnAllow(s: Settings, c: Circuit, e: Event)
    requires c.state == Open
    ensures Step(s, c, e).state == HalfOpen <==> e.Allow? && !Refuses(c, e.now)
    ensures Step(s, c, e).state != Closed
    ensures Step(s, c, e).state == HalfOpen ==> Step(s, c, e).halfOpenPasses == 0
  {
  }

  // --------------------------------------------------------------------- a whole life

  function Life(s: Settings, es: seq<Event>): Circuit { Run(s, FRESH, es) }

  /** The kind of the last failure of the streak. */
  function LastKind(es: seq<Event>): string {
    if es == [] then ""
    else
      match es[|es| - 1]
      case Failure(_, kind) => kind
      case Success => ""
      case Allow(_) => LastKind(es[..|es| - 1])
  }

  /** Closed since the start or since a half-open circuit took its last pass; its failures are the streak since. */
  ghost predicate ClosedSince(s: Settings, es: seq<Event>, k: nat)
    requires k <= |es|
  {
    && (k == 0 || (es[k - 1].Success? && Life(s, es[..k - 1]).state == HalfOpen))
    && Life(s, es).failures == Streak(es[k..]) < s.failureThreshold
    && Life(s, es).lastFailure == LastKind(es[k..])
  }

  /** A failure at `m` makes the failures reach the threshold. */
  ghost predicate Full(s: Settings, es: seq<Event>, m: nat)
    requires m < |es|
  {
    es[m].Failure? && Life(s, es[..m + 1]).failures >= s.failureThreshold
  }

  /**
    The deadline is a cooldown from the failure at `m`: the one that opened the circuit, or
    the last one since that found the failures at the threshold.
   */
  ghost predicate DeadlineFrom(s: Settings, es: seq<Event>, k: nat, m: nat) {
    && 1 <= k && k - 1 <= m < |es| && es[m].Failure? && Life(s, es).openUntil == es[m].now + s.cooldown
    && (m == k - 1 || Full(s, es, m))
    && forall n :: m < n < |es| ==> !Full(s, es, n)
  }

  /**
    Open since a failure that was the threshold-th in a row, or hit a half-open circuit;
    every Allow since came before the deadline of its time.
   */
  ghost predicate OpenSince(s: Settings, es: seq<Event>, k: nat)
    requires k <= |es|
  {
    && k >= 1 && es[k - 1].Failure?
    && (var before := Life(s, es[..k - 1]);
        before.state == HalfOpen || (before.state == Closed && before.failures + 1 == s.failureThreshold))
    && es[k - 1].now + s.cooldown <= Life(s, es).openUntil
    && (exists m :: DeadlineFrom(s, es, k, m))
    && (forall i :: k <= i < |es| && es[i].Allow? ==> es[i].now < Life(s, es[..i]).openUntil)
  }

  /** Half-open since the first Allow from the deadline on; no failure since, and not yet enough passes. */
  ghost predicate HalfOpenSince(s: Settings, es: seq<Event>, k: nat)
    requires k <= |es|
  {
    && k >= 1 && es[k - 1].Allow?
    && (var before := Life(s, es[..k - 1]); before.state == Open && before.openUntil <= es[k - 1].now)
    && NoFailure(es[k..]) && Life(s, es).halfOpenPasses == Passes(es[k..]) < s.halfOpenMaxPasses
  }

  /** The current state, and the event that began it. */
  ghost predicate Since(s: Settings, es: seq<Event>, k: nat) {
    k <= |es| &&
    match Life(s, es).state
    case Closed => ClosedSince(s, es, k)
    case Open => OpenSince(s, es, k)
    case HalfOpen => HalfOpenSince(s, es, k)
  }

  lemma SameLife(s: Settings, es: seq<Event>, e: Event)
    ensures Life(s, es + [e]) == Step(s, Life(s, es), e)
    ensures forall i :: 0 <= i <= |es| ==> (es + [e])[..i] == es[..i]
    ensures forall k :: 0 <= k <= |es| ==> (es + [e])[k..] == es[k..] + [e]
  {
    hide Step;
    assert (es + [e])[..|es|] == es;
  }

  lemma CountsAppend(es: seq<Event>, e: Event)
    ensures Streak(es + [e]) == match e case Failure(_, _) => Streak(es) + 1 case Success => 0 case Allow(_) => Streak(es)
    ensures Passes(es + [e]) == Passes(es) + if e.Success? then 1 else 0
    ensures LastKind(es + [e]) == match e case Failure(_, kind) => kind case Success => "" case Allow(_) => LastKind(es)
  {
    assert (es + [e])[..|es|] == es;
  }

  /** A failure that opens the circuit, or finds it at the threshold, sets the deadline. */
  lemma NewDeadline(s: Settings, es: seq<Event>, e: Event, k: nat)
    requires e.Failure? && Life(s, es + [e]).openUntil == e.now + s.cooldown && 1 <= k <= |es| + 1
    requires k == |es| + 1 || Life(s, es + [e]).failures >= s.failureThreshold
    ensures exists m :: DeadlineFrom(s, es + [e], k, m)
  {
    hide Life;
    assert (es + [e])[..|es| + 1] == es + [e];
    assert DeadlineFrom(s, es + [e], k, |es|);
  }

  /** Any other event leaves it. */
  lemma SameDeadline(s: Settings, es: seq<Event>, e: Event, k: nat, m: nat)
    requires DeadlineFrom(s, es, k, m) && Life(s, es + [e]).openUntil == Life(s, es).openUntil
    requires e.Failure? ==> Life(s, es + [e]).failures < s.failureThreshold
    ensures DeadlineFrom(s, es + [e], k, m)
  {
    hide Life;
    var all := es + [e];
    assert all[..|es| + 1] == all;
    forall n | 0 <= n < |es| ensures all[..n + 1] == es[..n + 1] && all[n] == es[n] {}
    forall n | m < n < |all| ensures !Full(s, all, n) { if n < |es| { assert !Full(s, es, n); } }
  }

  /** One event in the closed state. */
  lemma ClosedStep(s: Settings, c: Circuit, e: Event)
    requires c.state == Closed && c.failures < s.failureThreshold
    ensures var c' := Step(s, c, e);
            match e
            case Allow(_) => c' == c
            case Success => c'.state == Closed && c'.failures == 0 && c'.lastFailure == ""
            case Failure(now, kind) =>
              && c'.failures == c.failures + 1 && c'.lastFailure == kind
              && (if c'.failures == s.failureThreshold then c'.state == Open && c'.openUntil == now + s.cooldown else c'.state == Closed)
  {
  }

  lemma ClosedGoesOn(s: Settings, es: seq<Event>, e: Event, k: nat) returns (k': nat)
    requires ValidSettings(s) && Since(s, es, k) && Life(s, es).state == Closed
    ensures Since(s, es + [e], k')
  {
    hide Life, Step, DeadlineFrom, Streak, LastKind;
    SameLife(s, es, e);
    CountsAppend(es[k..], e);
    ClosedStep(s, Life(s, es), e);
    k' := if Life(s, es + [e]).state == Open then |es| + 1 else k;
    if k' == |es| + 1 { NewDeadline(s, es, e, k'); }
  }

  lemma HalfOpenGoesOn(s: Settings, es: seq<Event>, e: Event, k: nat) returns (k': nat)
    requires ValidSettings(s) && Since(s, es, k) && Life(s, es).state == HalfOpen
    ensures Since(s, es + [e], k')
  {
    hide Life, Step, DeadlineFrom;
    SameLife(s, es, e);
    CountsAppend(es[k..], e);
    HalfOpenStep(s, Life(s, es), e);
    k' := if Life(s, es + [e]).state == HalfOpen then k else |es| + 1;
    assert (es + [e])[|es| + 1..] == [];
    if e.Failure? { NewDeadline(s, es, e, k'); }
  }

  lemma OpenGoesOn(s: Settings, es: seq<Event>, e: Event, k: nat) returns (k': nat)
    requires ValidSettings(s) && Since(s, es, k) && Life(s, es).state == Open
    requires e.Failure? ==> es[k - 1].Failure? && es[k - 1].now <= e.now
    ensures Since(s, es + [e], k')
  {
    hide Life, Step, DeadlineFrom;
    SameLife(s, es, e);
    HalfOpensOnlyOnAllow(s, Life(s, es), e);
    OpenStep(s, Life(s, es), e);
    k' := if Life(s, es + [e]).state == HalfOpen then |es| + 1 else k;
    assert (es + [e])[|es| + 1..] == [];
    if k' == k {
      var m :| DeadlineFrom(s, es, k, m);
      if e.Failure? && Life(s, es + [e]).failures >= s.failureThreshold { NewDeadline(s, es, e, k); } else { SameDeadline(s, es, e, k, m); }
    }
  }

  /** An open circuit's deadline moves exactly with a failure at the threshold. */
  lemma OpenStep(s: Settings, c: Circuit, e: Event)
    requires c.state == Open
    ensures var c' := Step(s, c, e);
            c'.state == Open ==>
              c'.openUntil == if e.Failure? && c'.failures >= s.failureThreshold then e.now + s.cooldown else c.openUntil
  {
  }

  /**
    The whole life of a circuit: along every trace under a steady clock from its creation,
    the state it is in began with the event that allows it, and holds what that state
    promises since.
   */
  lemma {:induction false} WholeLife(s: Settings, from: int, es: seq<Event>)
    requires ValidSettings(s) && Clocked(from, es)
    ensures exists k :: Since(s, es, k)
  {
    hide Since, Life;
    if es == [] {
      assert Since(s, [], 0) by { FreshIsClosed(s); }
    } else {
      var init, last := es[..|es| - 1], es[|es| - 1];
      assert init + [last] == es && forall i :: 0 <= i < |init| ==> init[i] == es[i];
      WholeLife(s, from, init);
      var k :| Since(s, init, k);
      SinceIsInside(s, init, k);
      match Life(s, init).state {
        case Closed => k := ClosedGoesOn(s, init, last, k);
        case HalfOpen => k := HalfOpenGoesOn(s, init, last, k);
        case Open => k := OpenGoesOn(s, init, last, k);
      }
    }
  }

  lemma FreshIsClosed(s: Settings)
    requires ValidSettings(s)
    ensures Since(s, [], 0)
  {
  }

  lemma SinceIsInside(s: Settings, es: seq<Event>, k: nat)
    requires Since(s, es, k)
    ensures k <= |es| && (Life(s, es).state == Open ==> k >= 1 && es[k - 1].Failure?)
  {
  }

  // --------------------------------------------------------------------- the breaker

  datatype Key = Key(exchange: string, endpoint: string, dataType: string)

  /** Key.String. */
  function Id(key: Key): string {
    Lower(Trim(key.exchange)) + ":" + Trim(key.endpoint) + ":" + Trim(key.dataType)
  }

  /** Colon-free keys share a circuit exactly when they agree up to blanks and the case of the exchange. */
  lemma SharedIff(a: Key, b: Key)
    requires ColonFree(a.exchange) && ColonFree(b.exchange) && ColonFree(Trim(a.endpoint)) && ColonFree(Trim(b.endpoint))
    ensures Id(a) == Id(b) <==>
            Lower(Trim(a.exchange)) == Lower(Trim(b.exchange)) && Trim(a.endpoint) == Trim(b.endpoint) && Trim(a.dataType) == Trim(b.dataType)
  {
    hide Trim, Lower, ColonFree;
    NormalColonFree(a.exchange);
    NormalColonFree(b.exchange);
    var x, y := Trim(a.endpoint) + ":" + Trim(a.dataType), Trim(b.endpoint) + ":" + Trim(b.dataType);
    assert Id(a) == Lower(Trim(a.exchange)) + ":" + x && Id(b) == Lower(Trim(b.exchange)) + ":" + y;
    if Id(a) == Id(b) {
      SplitAtColon(Lower(Trim(a.exchange)), x, Lower(Trim(b.exchange)), y);
      SplitAtColon(Trim(a.endpoint), Trim(a.dataType), Trim(b.endpoint), Trim(b.dataType));
    }
  }

  class Breaker {
    const settings: Settings
    var states: map<string, Circuit>

    /** stateFor, before it stores a missing circuit. */
    function Of(key: Key): Circuit
      reads this
    {
      if Id(key) in states then states[Id(key)] else FRESH
    }

    constructor (settings: Settings)
      ensures ValidSettings(this.settings) && states == map[]
      ensures this.settings.failureThreshold == if settings.failureThreshold >= 1 then settings.failureThreshold else 5
      ensures this.settings.cooldown == if settings.cooldown >= 1 then settings.cooldown else 30 * 1_000_000_000
      ensures this.settings.halfOpenMaxPasses == if settings.halfOpenMaxPasses >= 1 then settings.halfOpenMaxPasses else 1
    {
      this.settings := Normalized(settings);
      states := map[];
    }

    /** A cancelled context is refused without looking at the circuit. */
    method TryAllow(key: Key, now: int, cancelled: bool) returns (r: Result<State, string>)
      modifies this`states
      ensures r.Err? <==> cancelled || Refuses(old(Of(key)), now)
      ensures cancelled ==> states == old(states)
      ensures !cancelled ==> states == old(states)[Id(key) := AfterAllow(old(Of(key)), now)]
      ensures r.Ok? ==> r.value == Of(key).state
    {
      if cancelled {
        return Err("context ended");
      }
      var c := Of(key);
      if c.state == Open {
        if now < c.openUntil {
          states := states[Id(key) := c];
          return Err("circuit open");
        }
        c := c.(state := HalfOpen, halfOpenPasses := 0);
      }
      states := states[Id(key) := c];
      return Ok(c.state);
    }

    method RecordSuccess(key: Key)
      modifies this`states
      ensures states == old(states)[Id(key) := AfterSuccess(settings, old(Of(key)))]
    {
      var c := Of(key);
      if c.state == HalfOpen {
        c := c.(halfOpenPasses := c.halfOpenPasses + 1);
        if c.halfOpenPasses >= settings.halfOpenMaxPasses {
          c := c.(state := Closed, failures := 0, lastFailure := "", openUntil := NEVER);
        }
      } else {
        c := c.(failures := 0, lastFailure := "");
      }
      states := states[Id(key) := c];
    }

    method RecordFailure(key: Key, now: int, kind: string)
      modifies this`states
      ensures states == old(states)[Id(key) := AfterFailure(settings, old(Of(key)), now, kind)]
    {
      var c := Of(key);
      c := c.(failures := c.failures + 1, lastFailure := kind);
      if c.state == HalfOpen || c.failures >= settings.failureThreshold {
        c := c.(state := Open, openUntil := now + settings.cooldown, halfOpenPasses := 0);
      }
      states := states[Id(key) := c];
    }
  }
}
