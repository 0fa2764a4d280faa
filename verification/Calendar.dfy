/**
  The proleptic Gregorian calendar as Go's time package computes it in UTC: days are
  counted from 1 January of year 1, which was a Monday.
 */
module Calendar {

  /** Microseconds, for comparison with instants. */
  const DAY: int := 86_400 * 1_000_000

  predicate IsLeap(year: int) {
    year % 4 == 0 && (year % 100 != 0 || year % 400 == 0)
  }

  function YearLength(year: int): int {
    if IsLeap(year) then 366 else 365
  }

  function MonthLength(year: int, month: int): int
    requires 1 <= month <= 12
  {
    if month == 2 then (if IsLeap(year) then 29 else 28)
    else if month in {4, 6, 9, 11} then 30
    else 31
  }

  /** Days before 1 January: whole years plus their leap days. */
  function YearStart(year: int): int {
    365 * (year - 1) + (year - 1) / 4 - (year - 1) / 100 + (year - 1) / 400
  }

  function DaysBeforeMonth(year: int, month: int): int
    requires 1 <= month <= 12
  {
    if month == 1 then 0 else DaysBeforeMonth(year, month - 1) + MonthLength(year, month - 1)
  }

  /** time.Date(year, month, day) in days. */
  function DayOf(year: int, month: int, day: int): int
    requires 1 <= month <= 12
  {
    YearStart(year) + DaysBeforeMonth(year, month) + day - 1
  }

  /** time.Weekday: Sunday is 0. */
  function Weekday(day: int): int { (day + 1) % 7 }

  /** The closed form counts exactly the days of each year. */
  lemma YearsAbut(year: int)
    ensures YearStart(year + 1) == YearStart(year) + YearLength(year)
  {
    var a, b, c := year / 4 - (year - 1) / 4, year / 100 - (year - 1) / 100, year / 400 - (year - 1) / 400;
    assert YearStart(year + 1) == YearStart(year) + 365 + a - b + c;
    assert a - b + c == YearLength(year) - 365 by {
      hide YearStart;
      LeapStep(year, 4);
      LeapStep(year, 100);
      LeapStep(year, 400);
      Divides(year);
    }
  }

  lemma Divides(year: int)
    ensures year % 400 == 0 ==> year % 100 == 0
    ensures year % 100 == 0 ==> year % 4 == 0
  {
  }

  lemma LeapStep(year: int, n: int)
    requires n == 4 || n == 100 || n == 400
    ensures year / n == (year - 1) / n + (if year % n == 0 then 1 else 0)
  {
  }

  lemma MonthsFillYear(year: int)
    ensures DaysBeforeMonth(year, 12) + MonthLength(year, 12) == YearLength(year)
  {
    var leap := YearLength(year) - 365;
    assert DaysBeforeMonth(year, 2) == 31;
    assert DaysBeforeMonth(year, 3) == 59 + leap;
    assert DaysBeforeMonth(year, 4) == 90 + leap;
    assert DaysBeforeMonth(year, 5) == 120 + leap;
    assert DaysBeforeMonth(year, 6) == 151 + leap;
    assert DaysBeforeMonth(year, 7) == 181 + leap;
    assert DaysBeforeMonth(year, 8) == 212 + leap;
    assert DaysBeforeMonth(year, 9) == 243 + leap;
    assert DaysBeforeMonth(year, 10) == 273 + leap;
    assert DaysBeforeMonth(year, 11) == 304 + leap;
  }

  // ------------------------------------------------------------------ ISO 8601 weeks

  /** isoWeekStart: the Monday of the week of 4 January, plus whole weeks. */
  function IsoWeekStart(year: int, week: int): int {
    var jan4 := DayOf(year, 1, 4);
    var weekday := if Weekday(jan4) == 0 then 7 else Weekday(jan4);
    jan4 - (weekday - 1) + (week - 1) * 7
  }

  function WeeksIn(year: int): int {
    (IsoWeekStart(year + 1, 1) - IsoWeekStart(year, 1)) / 7
  }

  /** Thursday is 4, Wednesday is 3. */
  predicate IsLongYear(year: int) {
    var first := Weekday(DayOf(year, 1, 1));
    first == 4 || (first == 3 && IsLeap(year))
  }

  /** Section 3.2.2 of ISO 8601:2004: weeks start on Monday, week 1 holds 4 January, weeks abut. */
  lemma WeeksAreIso(year: int, week: int)
    ensures Weekday(IsoWeekStart(year, week)) == 1
    ensures IsoWeekStart(year, 1) <= DayOf(year, 1, 4) < IsoWeekStart(year, 2)
    ensures IsoWeekStart(year, week + 1) == IsoWeekStart(year, week) + 7
  {
    hide YearStart;
  }

  /** The week of 4 January starts on the last Monday up to it. */
  lemma WeekOneStart(year: int)
    ensures IsoWeekStart(year, 1) == YearStart(year) + 3 - (YearStart(year) + 3) % 7
    ensures IsLongYear(year) <==> (YearStart(year) + 3) % 7 == 6 || ((YearStart(year) + 3) % 7 == 5 && IsLeap(year))
  {
    hide YearStart, IsLeap;
  }

  /** Moving on by 52 weeks and one or two days. */
  lemma NextYearShift(x: int, extra: int)
    requires extra == 1 || extra == 2
    ensures x + 364 + extra - (x + 364 + extra) % 7 == x - x % 7 + if x % 7 + extra < 7 then 364 else 371
  {
  }

  /** Years have 52 or 53 weeks, 53 exactly when they start on a Thursday, or on a Wednesday and are leap. */
  lemma YearsHoldWholeWeeks(year: int)
    ensures IsoWeekStart(year + 1, 1) == IsoWeekStart(year, 1) + WeeksIn(year) * 7
    ensures WeeksIn(year) == if IsLongYear(year) then 53 else 52
  {
    hide YearStart, IsoWeekStart, IsLongYear, IsLeap;
    YearsAbut(year);
    WeekOneStart(year);
    WeekOneStart(year + 1);
    NextYearShift(YearStart(year) + 3, YearLength(year) - 364);
  }

  /**
    Names up to week 53 are accepted for every year.  Week 53 is a week of its own exactly
    in long years; in the others it is week 1 of the next year under another name.
   */
  lemma Week53Iff(year: int)
    ensures IsoWeekStart(year, 53) == IsoWeekStart(year + 1, 1) <==> !IsLongYear(year)
    ensures IsLongYear(year) ==> IsoWeekStart(year, 53) + 7 == IsoWeekStart(year + 1, 1)
  {
    hide YearStart;
    YearsHoldWholeWeeks(year);
  }
}
