/**
  Partition names and their ranges (internal/retention/partitions.go and
  store.go:113-123).  Ranges are in days; the cutoff is an instant in microseconds.
 */
module Partitions {
  import opened Wrappers
  import opened Text
  import opened Calendar
  import opened Decimal

  datatype Range = Range(start: int, end: int)

  datatype Partition = Partition(name: string, range: Range)

  predicate HasPrefix(s: string, prefix: string) {
    |prefix| <= |s| && s[..|prefix|] == prefix
  }

  /** `_(\d{4})_(\d{2})$`: the year and the month. */
  function MatchMonthly(s: string): Option<(int, int)> {
    var n := |s|;
    if n >= 8 && s[n - 8] == '_' && AllDigits(s[n - 7..n - 3]) && s[n - 3] == '_' && AllDigits(s[n - 2..]) then
      Some((Number(s[n - 7..n - 3]), Number(s[n - 2..])))
    else None
  }

  /** `(?i)_(\d{4})_w(\d{2})$`: the year and the week. */
  function MatchWeekly(s: string): Option<(int, int)> {
    var n := |s|;
    if n >= 9 && s[n - 9] == '_' && AllDigits(s[n - 8..n - 4]) && s[n - 4] == '_'
       && LowerChar(s[n - 3]) == 'w' && AllDigits(s[n - 2..]) then
      Some((Number(s[n - 8..n - 4]), Number(s[n - 2..])))
    else None
  }

  /** AddDate(0, 1, 0) from the first of a month. */
  function MonthRange(year: int, month: int): Range
    requires 1 <= month <= 12
  {
    Range(DayOf(year, month, 1), if month == 12 then DayOf(year + 1, 1, 1) else DayOf(year, month + 1, 1))
  }

  function WeekRange(year: int, week: int): Range {
    Range(IsoWeekStart(year, week), IsoWeekStart(year, week) + 7)
  }

  function ParsePartitionRange(parent: string, partition: string): Option<Range> {
    var name := Trim(partition);
    if parent != "" && !HasPrefix(Lower(name), Lower(parent) + "_") then None
    else
      match MatchMonthly(name)
      case Some((year, month)) => if 1 <= month <= 12 then Some(MonthRange(year, month)) else None
      case None =>
        match MatchWeekly(name)
        case Some((year, week)) => if 1 <= week <= 53 then Some(WeekRange(year, week)) else None
        case None => None
  }

  // ------------------------------------------------------------ ranges of real months

  /** A month's range is its own length, and the next month starts where it ends. */
  lemma MonthsAbut(year: int, month: int)
    requires 1 <= month <= 12
    ensures MonthRange(year, month).end == MonthRange(year, month).start + MonthLength(year, month)
    ensures month < 12 ==> MonthRange(year, month + 1).start == MonthRange(year, month).end
    ensures month == 12 ==> MonthRange(year + 1, 1).start == MonthRange(year, month).end
  {
    hide YearStart;
    YearsAbut(year);
    MonthsFillYear(year);
  }

  /** A week's range is seven days; the next week, in the same year or the next, starts where it ends. */
  lemma WeeksAbut(year: int, week: int)
    ensures WeekRange(year, week).end == WeekRange(year, week).start + 7
    ensures WeekRange(year, week + 1).start == WeekRange(year, week).end
    ensures WeekRange(year + 1, 1).start == WeekRange(year, WeeksIn(year)).end
  {
    hide YearStart, IsLongYear;
    WeeksAreIso(year, week);
    YearsHoldWholeWeeks(year);
  }

  /** An instant on the boundary of two ranges belongs to the later one. */
  lemma BoundaryBelongsToLater(a: Range, b: Range)
    requires a.start < a.end == b.start < b.end
    ensures InRange(b, a.end * 86_400_000_000) && !InRange(a, a.end * 86_400_000_000)
    ensures InRange(a, a.end * 86_400_000_000 - 1) && !InRange(b, a.end * 86_400_000_000 - 1)
  {
  }

  // --------------------------------------------------------------- names and parsing

  /** What ends in a four-digit year and a two-digit month. */
  lemma MonthlyReads(head: string, year: string, month: string)
    requires |year| == 4 && AllDigits(year) && |month| == 2 && AllDigits(month)
    ensures MatchMonthly(head + "_" + year + "_" + month) == Some((Number(year), Number(month)))
  {
    hide Number;
    var s := head + "_" + year + "_" + month;
    assert s[|s| - 7..|s| - 3] == year && s[|s| - 2..] == month;
  }

  /** And in a year and a week, in either case. */
  lemma WeeklyReads(head: string, year: string, letter: char, week: string)
    requires |year| == 4 && AllDigits(year) && |week| == 2 && AllDigits(week) && letter in {'w', 'W'}
    ensures MatchWeekly(head + "_" + year + "_" + [letter] + week) == Some((Number(year), Number(week)))
  {
    hide Number;
    var s := head + "_" + year + "_" + [letter] + week;
    assert s[|s| - 8..|s| - 4] == year && s[|s| - 2..] == week;
  }

  /** Nothing else matches. */
  lemma OnlyThoseMatch(s: string) returns (head: string, year: string, rest: string)
    requires MatchMonthly(s).Some? || MatchWeekly(s).Some?
    ensures |year| == 4 && AllDigits(year) && s == head + "_" + year + "_" + rest
    ensures if MatchMonthly(s).Some? then |rest| == 2 && AllDigits(rest) else |rest| == 3 && rest[0] in {'w', 'W'} && AllDigits(rest[1..])
  {
    hide Number;
    var n := if MatchMonthly(s).Some? then |s| - 8 else |s| - 9;
    head, year, rest := s[..n], s[n + 1..n + 5], s[n + 6..];
    assert s[n] == '_' && s[n + 5] == '_';
    assert s == s[..n] + [s[n]] + s[n + 1..n + 5] + [s[n + 5]] + s[n + 6..];
  }

  /** The parent only filters: names of other tables have no range, its own have theirs whatever the case. */
  lemma ParentFilters(parent: string, name: string)
    ensures ParsePartitionRange(parent, name) ==
            if parent == "" || HasPrefix(Lower(Trim(name)), Lower(parent) + "_") then ParsePartitionRange("", name) else None
  {
    hide Trim, Lower, MatchMonthly, MatchWeekly, MonthRange, WeekRange;
  }

  lemma TrimKeeps(s: string)
    requires s != "" && !IsSpace(s[0]) && !IsSpace(s[|s| - 1])
    ensures Trim(s) == s
  {
  }

  lemma PrefixReads(parent: string, tail: string)
    ensures HasPrefix(Lower(parent + "_" + tail), Lower(parent) + "_")
  {
  }

  function MonthName(parent: string, year: nat, month: nat): string {
    parent + "_" + (Pad(year, 4) + "_" + Pad(month, 2))
  }

  function WeekName(parent: string, year: nat, week: nat): string {
    parent + "_" + (Pad(year, 4) + "_w" + Pad(week, 2))
  }

  /** Every month and week name of every four-digit year parses back to its own range. */
  lemma NamesParse(parent: string, year: nat, month: nat, week: nat)
    requires parent == "" || !IsSpace(parent[0])
    requires year < 10_000 && 1 <= month <= 12 && 1 <= week <= 53
    ensures ParsePartitionRange(parent, MonthName(parent, year, month)) == Some(MonthRange(year, month))
    ensures ParsePartitionRange(parent, WeekName(parent, year, week)) == Some(WeekRange(year, week))
  {
    hide MonthRange, WeekRange, Pad, Number, Lower, Trim;
    MonthNameMatches(parent, year, month);
    WeekNameMatches(parent, year, week);
    PrefixReads(parent, Pad(year, 4) + "_" + Pad(month, 2));
    PrefixReads(parent, Pad(year, 4) + "_w" + Pad(week, 2));
  }

  lemma MonthNameMatches(parent: string, year: nat, month: nat)
    requires parent == "" || !IsSpace(parent[0])
    requires year < 10_000 && 1 <= month <= 12
    ensures Trim(MonthName(parent, year, month)) == MonthName(parent, year, month)
    ensures MatchMonthly(MonthName(parent, year, month)) == Some((year as int, month as int))
  {
    hide Pad, Number, Trim;
    assert Pow10(4) == 10_000 && Pow10(2) == 100;
    PadReads(year, 4);
    PadReads(month, 2);
    var s := MonthName(parent, year, month);
    assert s[|s| - 7..|s| - 3] == Pad(year, 4) && s[|s| - 2..] == Pad(month, 2);
    assert IsDigit(s[|s| - 1]) by { assert s[|s| - 1] == Pad(month, 2)[1]; }
    TrimKeeps(s);
  }

  lemma WeekNameMatches(parent: string, year: nat, week: nat)
    requires parent == "" || !IsSpace(parent[0])
    requires year < 10_000 && 1 <= week <= 53
    ensures Trim(WeekName(parent, year, week)) == WeekName(parent, year, week)
    ensures MatchMonthly(WeekName(parent, year, week)) == None
    ensures MatchWeekly(WeekName(parent, year, week)) == Some((year as int, week as int))
  {
    hide Pad, Number, Trim;
    assert Pow10(4) == 10_000 && Pow10(2) == 100;
    PadReads(year, 4);
    PadReads(week, 2);
    var s := WeekName(parent, year, week);
    assert s[|s| - 8..|s| - 4] == Pad(year, 4) && s[|s| - 2..] == Pad(week, 2);
    assert s[|s| - 3] == 'w';
    assert IsDigit(s[|s| - 1]) by { assert s[|s| - 1] == Pad(week, 2)[1]; }
    TrimKeeps(s);
  }

  // -------------------------------------------------------------- what may be dropped

  /** The name parses and its whole range lies at or before the cutoff. */
  predicate Droppable(parent: string, name: string, cutoff: int) {
    var range := ParsePartitionRange(parent, name);
    range.Some? && range.value.end * DAY <= cutoff
  }

  function DroppableOf(parent: string, names: seq<string>, cutoff: int): seq<Partition> {
    if names == [] then []
    else
      var rest := DroppableOf(parent, names[..|names| - 1], cutoff);
      var name := names[|names| - 1];
      if Droppable(parent, name, cutoff) then rest + [Partition(name, ParsePartitionRange(parent, name).value)] else rest
  }

  /** EligiblePartitions, and the scan loop of ListEligiblePartitions. */
  method EligiblePartitions(parent: string, names: seq<string>, cutoff: int) returns (partitions: seq<Partition>)
    ensures partitions == DroppableOf(parent, names, cutoff)
  {
    partitions := [];
    var i := 0;
    while i < |names|
      invariant 0 <= i <= |names|
      invariant partitions == DroppableOf(parent, names[..i], cutoff)
    {
      assert names[..i + 1][..i] == names[..i];
      var range := ParsePartitionRange(parent, names[i]);
      if range.Some? && !(range.value.end * DAY > cutoff) {
        partitions := partitions + [Partition(names[i], range.value)];
      }
      i := i + 1;
    }
    assert names[..i] == names;
  }

  lemma {:induction false} RangesAreNonEmpty(parent: string, name: string)
    requires ParsePartitionRange(parent, name).Some?
    ensures ParsePartitionRange(parent, name).value.start < ParsePartitionRange(parent, name).value.end
  {
    hide MonthRange;
    var name' := Trim(name);
    if MatchMonthly(name').Some? {
      var (year, month) := MatchMonthly(name').value;
      MonthsAbut(year, month);
    }
  }

  predicate InRange(range: Range, at: int) {
    range.start * DAY <= at < range.end * DAY
  }

  /** A partition may be dropped exactly when its name has a range that lies before the cutoff as a whole. */
  lemma DroppableIff(parent: string, name: string, cutoff: int)
    ensures Droppable(parent, name, cutoff) <==>
            ParsePartitionRange(parent, name).Some? && forall at :: InRange(ParsePartitionRange(parent, name).value, at) ==> at < cutoff
  {
    hide ParsePartitionRange;
    if ParsePartitionRange(parent, name).Some? {
      RangesAreNonEmpty(parent, name);
      var range := ParsePartitionRange(parent, name).value;
      assert InRange(range, range.end * DAY - 1);
    }
  }

  /** Exactly the droppable names are selected, and every instant of a selected range is before the cutoff. */
  lemma {:induction false} DropsOnlyOldRanges(parent: string, names: seq<string>, cutoff: int)
    ensures forall p :: p in DroppableOf(parent, names, cutoff) ==>
              p.name in names && Some(p.range) == ParsePartitionRange(parent, p.name)
    ensures forall p, at :: p in DroppableOf(parent, names, cutoff) && InRange(p.range, at) ==> at < cutoff
    ensures forall name :: name in names && Droppable(parent, name, cutoff) ==>
              Partition(name, ParsePartitionRange(parent, name).value) in DroppableOf(parent, names, cutoff)
  {
    hide ParsePartitionRange;
    if names != [] {
      var init, last := names[..|names| - 1], names[|names| - 1];
      DropsOnlyOldRanges(parent, init, cutoff);
      var before, all := DroppableOf(parent, init, cutoff), DroppableOf(parent, names, cutoff);
      forall p | p in all
        ensures p.name in names && Some(p.range) == ParsePartitionRange(parent, p.name)
        ensures p.range.end * DAY <= cutoff || p in before
      {
        if p in before { assert p.name in init; } else { assert p == all[|all| - 1]; }
      }
      forall name | name in names ensures name in init || name == last {}
    }
  }
}
