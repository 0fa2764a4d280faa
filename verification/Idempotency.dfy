/**
  Idempotency keys and time buckets (internal/scheduler/idempotency.go).  Instants are
  nanoseconds since 1 January of year 1 UTC, Go's zero time.
 */
module Idempotency {
  import opened Wrappers
  import opened Text
  import opened Calendar
  import opened Decimal

  const NANO: int := 1_000_000_000
  const DAY_NANOS: int := 86_400 * NANO

  /** Truncate to a multiple of the interval since the zero time. */
  function ScheduledBucket(at: int, intervalSeconds: int): int {
    if intervalSeconds <= 0 then at else at - at % (intervalSeconds * NANO)
  }

  // ------------------------------------------------------------------- civil dates

  /** The year holding a day, given in days since 1 January of `year`, and the day within it. */
  function YearOf(days: nat, year: int): (r: (int, int))
    ensures 0 <= r.1 < YearLength(r.0) && year <= r.0
    decreases days
  {
    if days < YearLength(year) then (year, days) else YearOf(days - YearLength(year), year + 1)
  }

  function MonthOf(year: int, days: nat, month: int): (int, int)
    requires 1 <= month <= 12
    decreases 12 - month
  {
    if month == 12 || days < MonthLength(year, month) then (month, days + 1)
    else MonthOf(year, days - MonthLength(year, month), month + 1)
  }

  datatype Date = Date(year: int, month: int, day: int)

  function DateOf(days: nat): Date {
    var (year, rest) := YearOf(days, 1);
    var (month, day) := MonthOf(year, rest, 1);
    Date(year, month, day)
  }

  lemma {:induction false} YearOfInverts(days: nat, year: int)
    ensures YearStart(year) + days == YearStart(YearOf(days, year).0) + YearOf(days, year).1
    decreases days
  {
    hide YearStart;
    if days >= YearLength(year) {
      YearsAbut(year);
      YearOfInverts(days - YearLength(year), year + 1);
    }
  }

  lemma {:induction false} MonthOfInverts(year: int, days: nat, month: int)
    requires 1 <= month <= 12 && DaysBeforeMonth(year, month) + days < YearLength(year)
    ensures var (m, d) := MonthOf(year, days, month);
            && 1 <= m <= 12 && 1 <= d <= 31
            && DaysBeforeMonth(year, month) + days == DaysBeforeMonth(year, m) + d - 1
    decreases 12 - month
  {
    hide MonthLength, YearLength;
    MonthLengths(year, month);
    if month == 12 {
      MonthsFillYear(year);
    } else if days >= MonthLength(year, month) {
      MonthOfInverts(year, days - MonthLength(year, month), month + 1);
    }
  }

  lemma MonthLengths(year: int, month: int)
    requires 1 <= month <= 12
    ensures 28 <= MonthLength(year, month) <= 31
  {
  }

  /** The civil date of a day number is the date with that day number. */
  lemma DateOfInverts(days: nat)
    ensures var d := DateOf(days);
            1 <= d.year && 1 <= d.month <= 12 && 1 <= d.day <= 31 && DayOf(d.year, d.month, d.day) == days
  {
    hide DaysBeforeMonth, MonthOf, YearOf;
    YearOfInverts(days, 1);
    var (year, rest) := YearOf(days, 1);
    DaysBeforeJanuary(year);
    MonthOfInverts(year, rest, 1);
  }

  lemma DaysBeforeJanuary(year: int)
    ensures DaysBeforeMonth(year, 1) == 0
  {
  }

  // --------------------------------------------------------- RFC 3339 timestamps

  /** Section 5.6 of RFC 3339, whole seconds, UTC. */
  function Format(at: nat): string {
    var d, second := DateOf(at / DAY_NANOS), at % DAY_NANOS / NANO;
    DateText(d) + ("T" + ClockText(second) + "Z")
  }

  /** At least four digits; years after 9999 take as many as they need. */
  function YearText(year: nat): string { if year < 10_000 then Pad(year, 4) else Itoa(year) }

  function DateText(d: Date): string {
    if d.year < 0 || d.month < 0 || d.day < 0 then ""
    else YearText(d.year) + ("-" + Pad(d.month, 2) + "-" + Pad(d.day, 2))
  }

  function ClockText(second: nat): string {
    Pad(Hour(second), 2) + ":" + Pad(Minute(second), 2) + ":" + Pad(second % 60, 2)
  }

  function Hour(second: nat): nat { second / 3600 }
  function Minute(second: nat): nat { second / 60 % 60 }

  lemma ClockFields(second: nat)
    requires second < 86_400
    ensures Hour(second) < 100 && Minute(second) < 100 && second % 60 < 100
    ensures second == 3600 * Hour(second) + 60 * Minute(second) + second % 60
  {
  }

  // Reading a timestamp back.

  predicate TwoDigits(t: string, i: nat) { i + 2 <= |t| && IsDigit(t[i]) && IsDigit(t[i + 1]) }

  function NumberAt(t: string, i: nat): nat
    requires TwoDigits(t, i)
  {
    10 * (t[i] as int - '0' as int) + (t[i + 1] as int - '0' as int)
  }

  predicate IsTimestamp(t: string, n: nat) {
    && |t| == n + 16 && AllDigits(t[..n])
    && t[n] == '-' && TwoDigits(t, n + 1) && t[n + 3] == '-' && TwoDigits(t, n + 4)
    && t[n + 6] == 'T' && TwoDigits(t, n + 7) && t[n + 9] == ':' && TwoDigits(t, n + 10) && t[n + 12] == ':' && TwoDigits(t, n + 13)
    && t[n + 15] == 'Z'
  }

  /** Seconds since the zero time of a timestamp: a year, then two digits for every other field. */
  function ReadTimestamp(t: string): Option<int> {
    if |t| < 16 || !IsTimestamp(t, |t| - 16) then None
    else
      var n := |t| - 16;
      var month, day, hour, minute, second := NumberAt(t, n + 1), NumberAt(t, n + 4), NumberAt(t, n + 7), NumberAt(t, n + 10), NumberAt(t, n + 13);
      if !(1 <= month <= 12) then None
      else Some(((DayOf(Number(t[..n]), month, day) * 24 + hour) * 60 + minute) * 60 + second)
  }

  lemma PadTwo(n: nat)
    requires n < 100
    ensures |Pad(n, 2)| == 2 && TwoDigits(Pad(n, 2), 0) && NumberAt(Pad(n, 2), 0) == n
  {
    hide Number;
    assert Pad(n / 10, 1) == Pad(n / 10 / 10, 0) + [DigitChar(n / 10 % 10)];
    assert Pad(n, 2) == [DigitChar(n / 10), DigitChar(n % 10)];
  }

  lemma YearReads(year: nat)
    ensures AllDigits(YearText(year)) && Number(YearText(year)) == year
  {
    hide Pad, Number, Itoa;
    assert Pow10(4) == 10_000;
    if year < 10_000 { PadReads(year, 4); } else { ItoaReads(year); }
  }

  /** The pieces of a timestamp, each where it belongs. */
  lemma PiecesRead(year: string, month: string, day: string, hour: string, minute: string, second: string)
    requires AllDigits(year) && TwoDigits(month, 0) && TwoDigits(day, 0) && TwoDigits(hour, 0) && TwoDigits(minute, 0) && TwoDigits(second, 0)
    requires |month| == |day| == |hour| == |minute| == |second| == 2
    ensures var t := year + ("-" + month + "-" + day) + ("T" + (hour + ":" + minute + ":" + second) + "Z");
            var n := |year|;
            && |t| == n + 16 && IsTimestamp(t, n) && t[..n] == year
            && NumberAt(t, n + 1) == NumberAt(month, 0) && NumberAt(t, n + 4) == NumberAt(day, 0)
            && NumberAt(t, n + 7) == NumberAt(hour, 0) && NumberAt(t, n + 10) == NumberAt(minute, 0) && NumberAt(t, n + 13) == NumberAt(second, 0)
  {
    hide Number;
    var rest := "-" + month + "-" + day + "T" + hour + ":" + minute + ":" + second + "Z";
    var t := year + ("-" + month + "-" + day) + ("T" + (hour + ":" + minute + ":" + second) + "Z");
    assert t == year + rest;
    assert t[..|year|] == year && forall i :: 0 <= i < 16 ==> t[|year| + i] == rest[i];
  }

  /** A timestamp reads back as the instant it was made from, to the second. */
  lemma FormatReads(at: nat)
    ensures ReadTimestamp(Format(at)) == Some(at / 1_000_000_000)
  {
    hide DateOf, DayOf, Pad, Number, YearText, Hour, Minute, IsTimestamp, NumberAt;
    var d, second := DateOf(at / DAY_NANOS), at % DAY_NANOS / NANO;
    DateOfInverts(at / DAY_NANOS);
    ClockFields(second);
    YearReads(d.year);
    PadTwo(d.month);
    PadTwo(d.day);
    PadTwo(Hour(second));
    PadTwo(Minute(second));
    PadTwo(second % 60);
    PiecesRead(YearText(d.year), Pad(d.month, 2), Pad(d.day, 2), Pad(Hour(second), 2), Pad(Minute(second), 2), Pad(second % 60, 2));
    SecondsOfInstant(at);
  }

  /** So timestamps tell whole seconds apart. */
  lemma FormatInjective(a: nat, b: nat)
    requires Format(a) == Format(b)
    ensures a / NANO == b / NANO
  {
    hide Format, ReadTimestamp;
    FormatReads(a);
    FormatReads(b);
  }

  lemma SecondsOfInstant(at: nat)
    ensures at / NANO == at / DAY_NANOS * 86_400 + at % DAY_NANOS / NANO
  {
  }

  // ---------------------------------------------------------------------- the key

  function IdempotencyKey(exchange: string, dataType: string, symbolId: int, sourceSymbol: string, period: string, bucket: nat): string {
    Lower(Trim(exchange)) + ":" + (Trim(dataType) + ":" + (Itoa(symbolId) + ":" + (Trim(sourceSymbol) + ":" + (Trim(period) + ":" + Format(bucket)))))
  }

  lemma ItoaColonFree(n: int)
    ensures ColonFree(Itoa(n))
  {
    ItoaReads(if n < 0 then -n else n);
  }

  /** Equal keys come from equal normalised fields, and from instants in the same second. */
  lemma KeyInjective(e1: string, d1: string, i1: int, s1: string, p1: string, b1: nat, e2: string, d2: string, i2: int, s2: string, p2: string, b2: nat)
    requires ColonFree(Lower(Trim(e1))) && ColonFree(Trim(d1)) && ColonFree(Trim(s1)) && ColonFree(Trim(p1))
    requires ColonFree(Lower(Trim(e2))) && ColonFree(Trim(d2)) && ColonFree(Trim(s2)) && ColonFree(Trim(p2))
    requires IdempotencyKey(e1, d1, i1, s1, p1, b1) == IdempotencyKey(e2, d2, i2, s2, p2, b2)
    ensures Lower(Trim(e1)) == Lower(Trim(e2)) && Trim(d1) == Trim(d2) && i1 == i2 && Trim(s1) == Trim(s2) && Trim(p1) == Trim(p2)
    ensures b1 / NANO == b2 / NANO
  {
    hide Lower, Trim, Itoa, Format, ColonFree;
    var x5, y5 := Format(b1), Format(b2);
    var x4, y4 := Trim(p1) + ":" + x5, Trim(p2) + ":" + y5;
    var x3, y3 := Trim(s1) + ":" + x4, Trim(s2) + ":" + y4;
    var x2, y2 := Itoa(i1) + ":" + x3, Itoa(i2) + ":" + y3;
    var x1, y1 := Trim(d1) + ":" + x2, Trim(d2) + ":" + y2;
    SplitAtColon(Lower(Trim(e1)), x1, Lower(Trim(e2)), y1);
    SplitAtColon(Trim(d1), x2, Trim(d2), y2);
    ItoaColonFree(i1);
    ItoaColonFree(i2);
    SplitAtColon(Itoa(i1), x3, Itoa(i2), y3);
    ItoaInjective(i1, i2);
    SplitAtColon(Trim(s1), x4, Trim(s2), y4);
    SplitAtColon(Trim(p1), x5, Trim(p2), y5);
    FormatInjective(b1, b2);
  }
}
