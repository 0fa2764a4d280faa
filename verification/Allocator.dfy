/**
  The strict-priority budget allocator (internal/ratelimit/allocator.go).
 */
module Allocator {
  import opened Numbers
  import opened Text

  datatype Request = Request(exchange: string, class_: string, demand: int)

  datatype Allocation = Allocation(exchange: string, class_: string, granted: int)

  function WorkClassPriority(class_: string): int {
    match class_
    case "watchlist_realtime" => 1
    case "top100_1m" => 2
    case "all_5m_core" => 3
    case "historical_backfill" => 4
    case "debug_retry" => 5
    case _ => 99
  }

  function Rank(r: Request): int { WorkClassPriority(r.class_) }

  // ------------------------------------------------------------------ stable sort

  /** Ahead of the first request that does not come strictly before it. */
  function InsertRanked(r: Request, sorted: seq<Request>): seq<Request> {
    if sorted == [] || Rank(r) <= Rank(sorted[0]) then [r] + sorted
    else [sorted[0]] + InsertRanked(r, sorted[1..])
  }

  /** What sort.SliceStable leaves, see RankedIsStableSort. */
  function Ranked(rs: seq<Request>): seq<Request> {
    if rs == [] then [] else InsertRanked(rs[0], Ranked(rs[1..]))
  }

  function OfRank(rs: seq<Request>, p: int): seq<Request> {
    if rs == [] then []
    else (if Rank(rs[0]) == p then [rs[0]] else []) + OfRank(rs[1..], p)
  }

  function UpTo(rs: seq<Request>, p: int): seq<Request> {
    if rs == [] then []
    else (if Rank(rs[0]) <= p then [rs[0]] else []) + UpTo(rs[1..], p)
  }

  function Above(rs: seq<Request>, p: int): seq<Request> {
    if rs == [] then []
    else (if Rank(rs[0]) <= p then [] else [rs[0]]) + Above(rs[1..], p)
  }

  ghost predicate Ordered(rs: seq<Request>) {
    forall i, j :: 0 <= i < j < |rs| ==> Rank(rs[i]) <= Rank(rs[j])
  }

  lemma {:induction false} InsertKeepsElements(r: Request, sorted: seq<Request>)
    ensures multiset(InsertRanked(r, sorted)) == multiset{r} + multiset(sorted)
  {
    hide Rank;
    if sorted != [] {
      assert sorted == [sorted[0]] + sorted[1..];
      InsertKeepsElements(r, sorted[1..]);
    }
  }

  lemma {:induction false} InsertKeepsOrder(r: Request, sorted: seq<Request>)
    requires Ordered(sorted)
    ensures Ordered(InsertRanked(r, sorted))
  {
    hide Rank;
    if sorted != [] && Rank(sorted[0]) < Rank(r) {
      InsertKeepsOrder(r, sorted[1..]);
      var rest := InsertRanked(r, sorted[1..]);
      InsertKeepsElements(r, sorted[1..]);
      forall i | 0 <= i < |rest| ensures Rank(sorted[0]) <= Rank(rest[i]) {
        assert rest[i] in multiset(rest);
      }
    }
  }

  lemma {:induction false} InsertIsStable(r: Request, sorted: seq<Request>, p: int)
    requires Ordered(sorted)
    ensures OfRank(InsertRanked(r, sorted), p) == OfRank([r] + sorted, p)
  {
    hide Rank;
    assert ([r] + sorted)[1..] == sorted;
    if sorted != [] && Rank(sorted[0]) < Rank(r) {
      InsertIsStable(r, sorted[1..], p);
      var rest := InsertRanked(r, sorted[1..]);
      assert ([sorted[0]] + rest)[1..] == rest;
      assert ([r] + sorted[1..])[1..] == sorted[1..];
      if Rank(r) == p { NoneBelow(sorted, p); }
    }
  }

  /** A request that sorts strictly before rank p is not of rank p. */
  lemma NoneBelow(sorted: seq<Request>, p: int)
    requires sorted != [] && Rank(sorted[0]) < p
    ensures OfRank(sorted, p) == OfRank(sorted[1..], p)
  {
  }

  /** A stable sort: a permutation, in rank order, and each rank keeps its input order. */
  lemma {:induction false} RankedIsStableSort(rs: seq<Request>, p: int)
    ensures multiset(Ranked(rs)) == multiset(rs)
    ensures Ordered(Ranked(rs))
    ensures OfRank(Ranked(rs), p) == OfRank(rs, p)
  {
    hide Rank, InsertRanked, Ordered;
    if rs == [] {
      assert Ordered(Ranked(rs)) by { EmptyIsOrdered(); }
    } else {
      assert rs == [rs[0]] + rs[1..];
      var sorted := Ranked(rs[1..]);
      RankedIsStableSort(rs[1..], p);
      InsertKeepsElements(rs[0], sorted);
      InsertKeepsOrder(rs[0], sorted);
      InsertIsStable(rs[0], sorted, p);
      assert ([rs[0]] + sorted)[1..] == sorted;
    }
  }

  lemma EmptyIsOrdered()
    ensures Ordered([])
  {
  }

  // ------------------------------------------------------------------- granting

  function Total(rs: seq<Request>): int {
    if rs == [] then 0 else rs[0].demand + Total(rs[1..])
  }

  function TotalGranted(allocs: seq<Allocation>): int {
    if allocs == [] then 0 else allocs[0].granted + TotalGranted(allocs[1..])
  }

  /** Serve the requests in order until the capacity is used up. */
  function Grants(rs: seq<Request>, capacity: int): seq<Allocation> {
    if rs == [] || capacity <= 0 then []
    else
      var granted := Min(rs[0].demand, capacity);
      [Allocation(rs[0].exchange, rs[0].class_, granted)] + Grants(rs[1..], capacity - granted)
  }

  ghost predicate Demanding(rs: seq<Request>) {
    forall i :: 0 <= i < |rs| ==> 0 < rs[i].demand
  }

  lemma {:induction false} TotalIsPositive(rs: seq<Request>)
    requires Demanding(rs)
    ensures 0 <= Total(rs)
  {
    if rs != [] { TotalIsPositive(rs[1..]); }
  }

  /** The grants add up to the capacity or to the whole demand, whichever is less. */
  lemma {:induction false} GrantsExhaust(rs: seq<Request>, capacity: int)
    requires Demanding(rs)
    ensures TotalGranted(Grants(rs, capacity)) == if capacity <= 0 then 0 else Min(capacity, Total(rs))
  {
    if rs != [] && 0 < capacity {
      var granted := Min(rs[0].demand, capacity);
      GrantsExhaust(rs[1..], capacity - granted);
      TotalIsPositive(rs[1..]);
      assert Grants(rs, capacity)[1..] == Grants(rs[1..], capacity - granted);
    }
  }

  /** The k-th grant goes to the k-th request, is at most its demand, and comes only after all ahead are full. */
  lemma {:induction false} GrantsInOrder(rs: seq<Request>, capacity: int, k: nat)
    requires Demanding(rs) && k < |Grants(rs, capacity)|
    ensures |Grants(rs, capacity)| <= |rs|
    ensures var a := Grants(rs, capacity)[k];
            a.exchange == rs[k].exchange && a.class_ == rs[k].class_ && 0 < a.granted <= rs[k].demand
    ensures forall i :: 0 <= i < k ==> Grants(rs, capacity)[i].granted == rs[i].demand
  {
    var rest := Grants(rs[1..], capacity - Min(rs[0].demand, capacity));
    if rest != [] {
      GrantsInOrder(rs[1..], capacity - Min(rs[0].demand, capacity), if k == 0 then 0 else k - 1);
      assert forall i :: 0 < i < k ==> Grants(rs, capacity)[i] == rest[i - 1];
    }
  }

  /** What comes later in the order does not change what comes first. */
  lemma {:induction false} GrantsArePrefix(ahead: seq<Request>, behind: seq<Request>, capacity: int)
    ensures Grants(ahead, capacity) <= Grants(ahead + behind, capacity)
    ensures |Grants(ahead, capacity)| < |ahead| ==> Grants(ahead + behind, capacity) == Grants(ahead, capacity)
  {
    if ahead != [] && 0 < capacity {
      assert (ahead + behind)[1..] == ahead[1..] + behind;
      GrantsArePrefix(ahead[1..], behind, capacity - Min(ahead[0].demand, capacity));
    }
  }

  // ------------------------------------------------------- classes do not interfere

  lemma {:induction false} InsertAhead(r: Request, ahead: seq<Request>, behind: seq<Request>, p: int)
    requires Rank(r) <= p && forall i :: 0 <= i < |behind| ==> p < Rank(behind[i])
    ensures InsertRanked(r, ahead + behind) == InsertRanked(r, ahead) + behind
  {
    hide Rank;
    if ahead == [] {
      assert ahead + behind == behind;
    } else {
      assert (ahead + behind)[1..] == ahead[1..] + behind;
      InsertAhead(r, ahead[1..], behind, p);
    }
  }

  lemma {:induction false} InsertBehind(r: Request, ahead: seq<Request>, behind: seq<Request>, p: int)
    requires p < Rank(r) && forall i :: 0 <= i < |ahead| ==> Rank(ahead[i]) <= p
    ensures InsertRanked(r, ahead + behind) == ahead + InsertRanked(r, behind)
  {
    hide Rank;
    if ahead == [] {
      assert ahead + behind == behind;
    } else {
      assert (ahead + behind)[1..] == ahead[1..] + behind;
      InsertBehind(r, ahead[1..], behind, p);
    }
  }

  lemma {:induction false} RankedBounds(rs: seq<Request>, p: int)
    ensures forall i :: 0 <= i < |Ranked(UpTo(rs, p))| ==> Rank(Ranked(UpTo(rs, p))[i]) <= p
    ensures forall i :: 0 <= i < |Ranked(Above(rs, p))| ==> p < Rank(Ranked(Above(rs, p))[i])
  {
    hide Rank;
    forall i | 0 <= i < |Ranked(UpTo(rs, p))| ensures Rank(Ranked(UpTo(rs, p))[i]) <= p {
      assert Ranked(UpTo(rs, p))[i] in multiset(Ranked(UpTo(rs, p)));
      RankedIsStableSort(UpTo(rs, p), p);
      UpToBounds(rs, p);
    }
    forall i | 0 <= i < |Ranked(Above(rs, p))| ensures p < Rank(Ranked(Above(rs, p))[i]) {
      assert Ranked(Above(rs, p))[i] in multiset(Ranked(Above(rs, p)));
      RankedIsStableSort(Above(rs, p), p);
      UpToBounds(rs, p);
    }
  }

  lemma {:induction false} UpToBounds(rs: seq<Request>, p: int)
    ensures forall r :: r in UpTo(rs, p) ==> Rank(r) <= p
    ensures forall r :: r in Above(rs, p) ==> p < Rank(r)
  {
    hide Rank;
    if rs != [] { UpToBounds(rs[1..], p); }
  }

  lemma {:induction false} RankedSplits(rs: seq<Request>, p: int)
    ensures Ranked(rs) == Ranked(UpTo(rs, p)) + Ranked(Above(rs, p))
  {
    hide Rank, InsertRanked;
    if rs != [] {
      var ahead, behind := Ranked(UpTo(rs[1..], p)), Ranked(Above(rs[1..], p));
      RankedSplits(rs[1..], p);
      RankedBounds(rs[1..], p);
      if Rank(rs[0]) <= p {
        InsertAhead(rs[0], ahead, behind, p);
        assert UpTo(rs, p)[1..] == UpTo(rs[1..], p) && Above(rs, p) == Above(rs[1..], p);
      } else {
        InsertBehind(rs[0], ahead, behind, p);
        assert Above(rs, p)[1..] == Above(rs[1..], p) && UpTo(rs, p) == UpTo(rs[1..], p);
      }
    }
  }

  /**
    Requests ranked above p leave the grants of the others as they would be without them:
    the served list starts with exactly those, and what follows goes to the lower classes.
   */
  lemma LowerClassesDoNotInterfere(rs: seq<Request>, capacity: int, p: int)
    requires Demanding(rs)
    ensures var high := Grants(Ranked(UpTo(rs, p)), capacity);
            var all := Grants(Ranked(rs), capacity);
            && high <= all
            && forall k :: |high| <= k < |all| ==> p < WorkClassPriority(all[k].class_)
  {
    hide Rank, Ranked, Grants, WorkClassPriority;
    var ahead, behind := Ranked(UpTo(rs, p)), Ranked(Above(rs, p));
    RankedSplits(rs, p);
    GrantsArePrefix(ahead, behind, capacity);
    var high, all := Grants(ahead, capacity), Grants(Ranked(rs), capacity);
    RankedIsStableSort(rs, p);
    MembersDemand(rs, Ranked(rs));
    forall k | |high| <= k < |all| ensures p < WorkClassPriority(all[k].class_) {
      GrantsInOrder(Ranked(rs), capacity, k);
      RankedBounds(rs, p);
      assert Ranked(rs)[k] == behind[k - |ahead|];
      RankOfClass(Ranked(rs)[k]);
    }
  }

  lemma RankOfClass(r: Request)
    ensures Rank(r) == WorkClassPriority(r.class_)
  {
  }

  lemma MembersDemand(rs: seq<Request>, sorted: seq<Request>)
    requires Demanding(rs) && multiset(sorted) == multiset(rs)
    ensures Demanding(sorted)
  {
    forall i | 0 <= i < |sorted| ensures 0 < sorted[i].demand {
      assert sorted[i] in multiset(sorted);
      assert sorted[i] in rs;
    }
  }

  /** The classes, most urgent first; any other class comes after them. */
  const CLASSES: seq<string> := ["watchlist_realtime", "top100_1m", "all_5m_core", "historical_backfill", "debug_retry"]

  predicate Ahead(a: string, b: string) { exists i :: 0 <= i < |CLASSES| && a == CLASSES[i] && b !in CLASSES[..i + 1] }

  lemma AheadIff(a: string, b: string)
    ensures Ahead(a, b) <==> WorkClassPriority(a) < WorkClassPriority(b)
  {
    var i, j := PlaceOf(a), PlaceOf(b);
    if i < j {
      assert i < |CLASSES| && a == CLASSES[i] && b !in CLASSES[..i + 1];
    }
  }

  /** The place of a class in the list, or the length of the list. */
  function PlaceOf(c: string): (i: nat)
    ensures i <= |CLASSES| && (i < |CLASSES| ==> c == CLASSES[i]) && c !in CLASSES[..i]
  {
    if c == CLASSES[0] then 0 else if c == CLASSES[1] then 1 else if c == CLASSES[2] then 2 else if c == CLASSES[3] then 3
    else if c == CLASSES[4] then 4 else 5
  }

  /** Strict priority: nothing is granted to a class before every request of a more urgent one is granted in full. */
  lemma UrgentFirst(rs: seq<Request>, capacity: int, k: nat, j: nat)
    requires Demanding(rs) && k < |Grants(Ranked(rs), capacity)| && j < |Ranked(rs)|
    requires Ahead(Ranked(rs)[j].class_, Grants(Ranked(rs), capacity)[k].class_)
    ensures multiset(Ranked(rs)) == multiset(rs)
    ensures j < k && Grants(Ranked(rs), capacity)[j].granted == Ranked(rs)[j].demand
  {
    hide Ranked, Grants, Ahead, WorkClassPriority;
    RankedIsStableSort(rs, 0);
    MembersDemand(rs, Ranked(rs));
    GrantsInOrder(Ranked(rs), capacity, k);
    AheadIff(Ranked(rs)[j].class_, Grants(Ranked(rs), capacity)[k].class_);
  }

  // ---------------------------------------------------------------- all exchanges

  function Normalized(exchange: string): string { Lower(Trim(exchange)) }

  predicate Counts(r: Request) { 0 < r.demand && Normalized(r.exchange) != "" }

  /** The requests of one exchange, in input order. */
  function Group(rs: seq<Request>, exchange: string): seq<Request> {
    if rs == [] then []
    else
      var init, r := Group(rs[..|rs| - 1], exchange), rs[|rs| - 1];
      if Counts(r) && Normalized(r.exchange) == exchange then init + [r.(exchange := exchange)] else init
  }

  function CapacityOf(capacities: map<string, int>, exchange: string): int {
    if exchange in capacities then capacities[exchange] else 0
  }

  function GrantsFor(rs: seq<Request>, capacities: map<string, int>, exchange: string): seq<Allocation> {
    Grants(Ranked(Group(rs, exchange)), CapacityOf(capacities, exchange))
  }

  function GrantAll(names: seq<string>, rs: seq<Request>, capacities: map<string, int>): seq<Allocation> {
    if names == [] then []
    else GrantAll(names[..|names| - 1], rs, capacities) + GrantsFor(rs, capacities, names[|names| - 1])
  }

  predicate Less(a: string, b: string) {
    if a == "" || b == "" then a == "" && b != ""
    else a[0] < b[0] || (a[0] == b[0] && Less(a[1..], b[1..]))
  }

  ghost predicate Ascending(names: seq<string>) {
    forall i, j :: 0 <= i < j < |names| ==> Less(names[i], names[j])
  }

  /** The exchange names that have a request, in order. */
  ghost predicate Names(names: seq<string>, rs: seq<Request>) {
    Ascending(names) && forall e :: e in names <==> Group(rs, e) != []
  }

  lemma {:induction false} GroupDemands(rs: seq<Request>, exchange: string)
    ensures Demanding(Group(rs, exchange))
    ensures forall r :: r in Group(rs, exchange) ==> r.exchange == exchange
  {
    hide Normalized;
    if rs != [] { GroupDemands(rs[..|rs| - 1], exchange); }
  }

  /** A group holds exactly the positive requests that name its exchange, up to blanks and case. */
  lemma {:induction false} GroupHolds(rs: seq<Request>, exchange: string, x: Request)
    ensures x in Group(rs, exchange) <==>
            && exchange != "" && x.exchange == exchange && 0 < x.demand
            && exists i :: 0 <= i < |rs| && Lower(Trim(rs[i].exchange)) == exchange && rs[i].(exchange := exchange) == x
  {
    hide Lower, Trim;
    if rs != [] {
      var init := rs[..|rs| - 1];
      GroupHolds(init, exchange, x);
      assert forall i :: 0 <= i < |init| ==> init[i] == rs[i];
    }
  }

  function OfExchange(allocs: seq<Allocation>, exchange: string): seq<Allocation> {
    if allocs == [] then []
    else
      var init := OfExchange(allocs[..|allocs| - 1], exchange);
      if allocs[|allocs| - 1].exchange == exchange then init + [allocs[|allocs| - 1]] else init
  }

  lemma {:induction false} OfExchangeAppend(a: seq<Allocation>, b: seq<Allocation>, exchange: string)
    ensures OfExchange(a + b, exchange) == OfExchange(a, exchange) + OfExchange(b, exchange)
  {
    if b == [] {
      assert a + b == a;
    } else {
      assert (a + b)[..|a + b| - 1] == a + b[..|b| - 1];
      OfExchangeAppend(a, b[..|b| - 1], exchange);
    }
  }

  lemma {:induction false} OfExchangeUniform(allocs: seq<Allocation>, from: string, exchange: string)
    requires forall i :: 0 <= i < |allocs| ==> allocs[i].exchange == from
    ensures OfExchange(allocs, exchange) == if from == exchange then allocs else []
  {
    if allocs != [] { OfExchangeUniform(allocs[..|allocs| - 1], from, exchange); }
  }

  lemma GrantsForExchange(rs: seq<Request>, capacities: map<string, int>, exchange: string)
    ensures forall i :: 0 <= i < |GrantsFor(rs, capacities, exchange)| ==> GrantsFor(rs, capacities, exchange)[i].exchange == exchange
  {
    hide Grants, Ranked, Group;
    var group := Group(rs, exchange);
    GroupDemands(rs, exchange);
    RankedIsStableSort(group, 0);
    MembersDemand(group, Ranked(group));
    forall i | 0 <= i < |GrantsFor(rs, capacities, exchange)| ensures GrantsFor(rs, capacities, exchange)[i].exchange == exchange {
      GrantsInOrder(Ranked(group), CapacityOf(capacities, exchange), i);
      assert Ranked(group)[i] in multiset(Ranked(group));
      assert Ranked(group)[i] in group;
    }
  }

  /** Within the whole answer, an exchange gets what it would get alone. */
  lemma {:induction false} ExchangesAreIndependent(names: seq<string>, rs: seq<Request>, capacities: map<string, int>, exchange: string)
    requires forall i, j :: 0 <= i < j < |names| ==> names[i] != names[j]
    ensures OfExchange(GrantAll(names, rs, capacities), exchange) == if exchange in names then GrantsFor(rs, capacities, exchange) else []
  {
    hide GrantsFor, OfExchange;
    if names == [] {
      OfExchangeUniform([], "", exchange);
    } else {
      var init, last := names[..|names| - 1], names[|names| - 1];
      assert exchange in names <==> exchange in init || exchange == last;
      ExchangesAreIndependent(init, rs, capacities, exchange);
      OfExchangeAppend(GrantAll(init, rs, capacities), GrantsFor(rs, capacities, last), exchange);
      GrantsForExchange(rs, capacities, last);
      OfExchangeUniform(GrantsFor(rs, capacities, last), last, exchange);
    }
  }

  lemma {:induction false} LessIsStrict(a: string, b: string)
    requires Less(a, b)
    ensures a != b
  {
    if a != "" && a[0] == b[0] { LessIsStrict(a[1..], b[1..]); }
  }

  /** Every exchange with requests and positive capacity is granted min(capacity, its demand) in all. */
  lemma ExchangeTotals(names: seq<string>, rs: seq<Request>, capacities: map<string, int>, exchange: string)
    requires Names(names, rs)
    ensures var capacity := CapacityOf(capacities, exchange);
            TotalGranted(OfExchange(GrantAll(names, rs, capacities), exchange)) ==
              if capacity <= 0 then 0 else Min(capacity, Total(Group(rs, exchange)))
    ensures exchange !in capacities ==> TotalGranted(OfExchange(GrantAll(names, rs, capacities), exchange)) == 0
  {
    hide Grants, Ranked, Less, Group, GrantAll;
    forall i, j | 0 <= i < j < |names| ensures names[i] != names[j] { LessIsStrict(names[i], names[j]); }
    ExchangesAreIndependent(names, rs, capacities, exchange);
    var group := Group(rs, exchange);
    GroupDemands(rs, exchange);
    RankedIsStableSort(group, 0);
    MembersDemand(group, Ranked(group));
    GrantsExhaust(Ranked(group), CapacityOf(capacities, exchange));
    TotalOfPermutation(group);
  }

  lemma {:induction false} TotalOfInsert(r: Request, sorted: seq<Request>)
    ensures Total(InsertRanked(r, sorted)) == r.demand + Total(sorted)
  {
    hide Rank;
    assert ([r] + sorted)[1..] == sorted;
    if sorted != [] { TotalOfInsert(r, sorted[1..]); }
  }

  lemma {:induction false} TotalOfPermutation(rs: seq<Request>)
    ensures Total(Ranked(rs)) == Total(rs)
  {
    hide InsertRanked;
    if rs != [] {
      TotalOfPermutation(rs[1..]);
      TotalOfInsert(rs[0], Ranked(rs[1..]));
    }
  }

  // ---------------------------------------------------------------- the algorithm

  method GroupRequests(requests: seq<Request>) returns (grouped: map<string, seq<Request>>)
    ensures forall e :: e in grouped <==> Group(requests, e) != []
    ensures forall e :: e in grouped ==> grouped[e] == Group(requests, e)
  {
    hide Normalized;
    grouped := map[];
    var i := 0;
    while i < |requests|
      invariant 0 <= i <= |requests|
      invariant forall e :: e in grouped <==> Group(requests[..i], e) != []
      invariant forall e :: e in grouped ==> grouped[e] == Group(requests[..i], e)
    {
      assert requests[..i + 1][..i] == requests[..i];
      var req := requests[i];
      if 0 < req.demand {
        var exchange := Normalized(req.exchange);
        if exchange != "" {
          var so_far := if exchange in grouped then grouped[exchange] else [];
          grouped := grouped[exchange := so_far + [req.(exchange := exchange)]];
        }
      }
      i := i + 1;
    }
    assert requests[..i] == requests;
  }

  lemma {:induction false} LessTrans(a: string, b: string, c: string)
    requires Less(a, b) && Less(b, c)
    ensures Less(a, c)
  {
    if a != "" && a[0] == b[0] && b[0] == c[0] { LessTrans(a[1..], b[1..], c[1..]); }
  }

  lemma {:induction false} LessTotal(a: string, b: string)
    ensures Less(a, b) || a == b || Less(b, a)
  {
    if a != "" && b != "" && a[0] == b[0] {
      LessTotal(a[1..], b[1..]);
      assert a == [a[0]] + a[1..] && b == [b[0]] + b[1..];
    }
  }

  function InsertName(name: string, names: seq<string>): seq<string> {
    if names == [] || Less(name, names[0]) then [name] + names
    else [names[0]] + InsertName(name, names[1..])
  }

  lemma {:induction false} InsertNameSorts(name: string, names: seq<string>)
    requires Ascending(names) && name !in names
    ensures Ascending(InsertName(name, names))
    ensures forall e :: e in InsertName(name, names) <==> e == name || e in names
  {
    hide Less;
    if names != [] {
      assert names == [names[0]] + names[1..];
      if Less(name, names[0]) {
        forall i | 0 < i < |names| ensures Less(name, names[i]) { LessTrans(name, names[0], names[i]); }
      } else {
        LessTotal(name, names[0]);
        InsertNameSorts(name, names[1..]);
        var rest := InsertName(name, names[1..]);
        forall i | 0 <= i < |rest| ensures Less(names[0], rest[i]) { assert rest[i] in rest; }
      }
    }
  }

  method SortNames(keys: set<string>) returns (names: seq<string>)
    ensures Ascending(names) && forall e :: e in names <==> e in keys
  {
    hide Ascending, InsertName;
    names := [];
    var rest := keys;
    EmptyAscends();
    while rest != {}
      invariant rest <= keys && Ascending(names)
      invariant forall e :: e in names <==> e in keys && e !in rest
      decreases |rest|
    {
      var name :| name in rest;
      InsertNameSorts(name, names);
      names := InsertName(name, names);
      rest := rest - {name};
    }
  }

  lemma EmptyAscends()
    ensures Ascending([])
  {
  }

  /** The inner loop over the requests of one exchange. */
  method Serve(rs: seq<Request>, available: int) returns (allocs: seq<Allocation>)
    ensures allocs == Grants(rs, available)
  {
    allocs := [];
    var capacity, i := available, 0;
    while i < |rs| && 0 < capacity
      invariant 0 <= i <= |rs|
      invariant allocs + Grants(rs[i..], capacity) == Grants(rs, available)
    {
      assert rs[i..][1..] == rs[i + 1..];
      var granted := rs[i].demand;
      if granted > capacity {
        granted := capacity;
      }
      capacity := capacity - granted;
      allocs := allocs + [Allocation(rs[i].exchange, rs[i].class_, granted)];
      i := i + 1;
    }
  }

  method Allocate(capacities: map<string, int>, requests: seq<Request>) returns (allocs: seq<Allocation>)
    ensures exists names :: Names(names, requests) && allocs == GrantAll(names, requests, capacities)
  {
    hide Group, Grants, Ranked, Ascending;
    var grouped := GroupRequests(requests);
    var names := SortNames(grouped.Keys);
    assert Names(names, requests);
    allocs := [];
    var i := 0;
    while i < |names|
      invariant 0 <= i <= |names|
      invariant allocs == GrantAll(names[..i], requests, capacities)
    {
      assert names[..i + 1][..i] == names[..i];
      var exchange := names[i];
      var served := Serve(Ranked(grouped[exchange]), CapacityOf(capacities, exchange));
      allocs := allocs + served;
      i := i + 1;
    }
    assert names[..i] == names;
  }
}
