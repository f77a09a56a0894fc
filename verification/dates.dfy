/**
 * Calendar dates as (year, month, day) triples in the proleptic Gregorian
 * calendar, read in UTC: month addition with the roll-over of JavaScript's
 * `Date.prototype.setMonth`, the `YYYY-MM-DD` strings the schedules carry,
 * and the month-end dates the correction looks up.
 */
module Dates {
  import opened Wrappers
  import opened Text

  datatype Date = Date(year: int, month: int, day: int)

  predicate IsLeapYear(y: int) {
    (y % 4 == 0 && y % 100 != 0) || y % 400 == 0
  }

  /** `new Date(y, m, 0).getDate()`: the number of days of month m (1..12) of year y. */
  function DaysInMonth(y: int, m: int): (n: int)
    requires 1 <= m <= 12
    ensures 28 <= n <= 31
    ensures n == 29 <==> m == 2 && IsLeapYear(y)
  {
    if m == 2 then (if IsLeapYear(y) then 29 else 28)
    else if m == 4 || m == 6 || m == 9 || m == 11 then 30
    else 31
  }

  predicate ValidDate(d: Date) {
    1 <= d.month <= 12 && 1 <= d.day <= DaysInMonth(d.year, d.month)
  }

  /** Months counted from January of year 0: consecutive months have consecutive indices. */
  function MonthIndex(d: Date): int {
    d.year * 12 + (d.month - 1)
  }

  /**
   * `setMonth(getMonth() + k)`: move k months, keeping the day of the month;
   * a day the target month does not have rolls over into the following month
   * (31 January plus one month is 3 March, or 2 March in a leap year).
   */
  function AddMonths(d: Date, k: int): (r: Date)
    requires ValidDate(d)
    ensures ValidDate(r)
    ensures var t := Date((MonthIndex(d) + k) / 12, (MonthIndex(d) + k) % 12 + 1, 1);
      if d.day <= DaysInMonth(t.year, t.month)
      then MonthIndex(r) == MonthIndex(d) + k && r.day == d.day
      else MonthIndex(r) == MonthIndex(d) + k + 1 && r.day == d.day - DaysInMonth(t.year, t.month) && r.day <= 3
  {
    var total := MonthIndex(d) + k;
    var y, m := total / 12, total % 12 + 1;
    var days := DaysInMonth(y, m);
    if d.day <= days then Date(y, m, d.day)
    else if m == 12 then Date(y + 1, 1, d.day - days)
    else Date(y, m + 1, d.day - days)
  }

  /** Adding no months returns the date itself. */
  lemma AddNoMonths(d: Date)
    requires ValidDate(d)
    ensures AddMonths(d, 0) == d
  {
    var total := MonthIndex(d);
    assert total / 12 == d.year && total % 12 + 1 == d.month;
  }

  /** A day that every month has (1..28) is kept, and the month moves by exactly k. */
  lemma AddMonthsEarlyDay(d: Date, k: int)
    requires ValidDate(d) && d.day <= 28
    ensures AddMonths(d, k).day == d.day
    ensures MonthIndex(AddMonths(d, k)) == MonthIndex(d) + k
  {
  }

  /**
   * Why each due date is computed afresh from the first one: stepping one
   * month at a time from 31 January 2023 drifts to 3 April, while adding two
   * months at once gives 31 March.
   */
  lemma MonthStepsDrift()
    ensures AddMonths(Date(2023, 1, 31), 1) == Date(2023, 3, 3)
    ensures AddMonths(AddMonths(Date(2023, 1, 31), 1), 1) == Date(2023, 4, 3)
    ensures AddMonths(Date(2023, 1, 31), 2) == Date(2023, 3, 31)
    ensures AddMonths(Date(2024, 1, 31), 1) == Date(2024, 3, 2)
  {
    assert DaysInMonth(2023, 2) == 28;
    assert DaysInMonth(2024, 2) == 29;
  }

  /** `date.toISOString().split('T')[0]` for a year between 0 and 9999: `YYYY-MM-DD`. */
  function IsoDate(d: Date): string
    requires 0 <= d.year <= 9999 && ValidDate(d)
  {
    PaddedNat(d.year, 4) + "-" + PaddedNat(d.month, 2) + "-" + PaddedNat(d.day, 2)
  }

  /**
   * `s.split('-').map(Number)` destructured into year, month and day: None
   * when a piece is missing or is not a number.
   */
  function ParseIsoDate(s: string): Option<Date>
  {
    var parts := Split(s, '-');
    if |parts| < 3 then None
    else match (NumberOf(parts[0]), NumberOf(parts[1]), NumberOf(parts[2]))
      case (Some(y), Some(m), Some(d)) => Some(Date(y, m, d))
      case _ => None
  }

  lemma PaddedHasNoDash(n: nat, width: nat)
    ensures '-' !in PaddedNat(n, width)
  {
    var s := PaddedNat(n, width);
    PaddingKeepsValue(NatToString(n), width);
    assert forall i :: 0 <= i < |s| ==> s[i] != '-';
  }

  /** Three dash-free pieces joined by dashes split back into those pieces. */
  lemma SplitThree(a: string, b: string, c: string)
    requires '-' !in a && '-' !in b && '-' !in c
    ensures Split(a + "-" + b + "-" + c, '-') == [a, b, c]
  {
    assert a + "-" + b + "-" + c == a + ['-'] + (b + ['-'] + c);
    SplitAtSeparator(a, b + ['-'] + c, '-');
    SplitAtSeparator(b, c, '-');
    SplitWithoutSeparator(c, '-');
  }

  /** Parsing the ISO string of a date gives the date back. */
  lemma ParseIsoRoundTrip(d: Date)
    requires 0 <= d.year <= 9999 && ValidDate(d)
    ensures ParseIsoDate(IsoDate(d)) == Some(d)
  {
    var y, m, dd := PaddedNat(d.year, 4), PaddedNat(d.month, 2), PaddedNat(d.day, 2);
    PaddedHasNoDash(d.year, 4);
    PaddedHasNoDash(d.month, 2);
    PaddedHasNoDash(d.day, 2);
    SplitThree(y, m, dd);
    PaddedNatRoundTrip(d.year, 4);
    PaddedNatRoundTrip(d.month, 2);
    PaddedNatRoundTrip(d.day, 2);
  }

  /** The instant `now`: a date and the milliseconds elapsed since its UTC midnight. */
  datatype Instant = Instant(date: Date, millis: int)

  predicate ValidInstant(t: Instant) {
    ValidDate(t.date) && 0 <= t.millis < 86400000
  }

  /** Calendar order of dates. */
  predicate DateBefore(a: Date, b: Date) {
    a.year < b.year || (a.year == b.year && (a.month < b.month || (a.month == b.month && a.day < b.day)))
  }

  /** Time order of instants: by date, then by time of day. */
  predicate InstantBefore(a: Instant, b: Instant) {
    DateBefore(a.date, b.date) || (a.date == b.date && a.millis < b.millis)
  }

  /** `new Date(date + 'T00:00:00Z')`. */
  function Midnight(d: Date): Instant {
    Instant(d, 0)
  }

  /** `estaVencida`: the due date, taken at UTC midnight, is strictly before now. */
  predicate Matured(due: Date, now: Instant) {
    InstantBefore(Midnight(due), now)
  }

  /** A due date matures exactly when it is an earlier day, or today once midnight has passed. */
  lemma MaturedIff(due: Date, now: Instant)
    requires ValidInstant(now)
    ensures Matured(due, now) <==> DateBefore(due, now.date) || (due == now.date && now.millis > 0)
  {
  }

  /** The year and month before (y, m); January goes back to December of the year before. */
  function PreviousMonth(y: int, m: int): (r: (int, int))
    requires 1 <= m <= 12
    ensures 1 <= r.1 <= 12
    ensures MonthIndex(Date(r.0, r.1, 1)) + 1 == MonthIndex(Date(y, m, 1))
  {
    if m - 1 == 0 then (y - 1, 12) else (y, m - 1)
  }

  /** The last day of month m of year y. */
  function LastDayOfMonth(y: int, m: int): (d: Date)
    requires 1 <= m <= 12
    ensures d.year == y && d.month == m
  {
    Date(y, m, DaysInMonth(y, m))
  }

  /** The last day of a month is a date of that month, and no date of the month comes after it. */
  lemma LastDayOfMonthIsLast(y: int, m: int)
    requires 1 <= m <= 12
    ensures ValidDate(LastDayOfMonth(y, m))
    ensures forall day :: ValidDate(Date(y, m, day)) ==> day <= LastDayOfMonth(y, m).day
  {
  }

  /**
   * The lookup key calculadora.ts builds for a date: the year as written by
   * `${year}` (no padding), month and day padded to two digits.
   */
  function IndexDateKey(d: Date): string
    requires ValidDate(d)
  {
    IntToString(d.year) + "-" + PaddedNat(d.month, 2) + "-" + PaddedNat(d.day, 2)
  }

  /** For a four-digit year the lookup key is the ISO string of the date. */
  lemma IndexKeyIsIso(d: Date)
    requires 1000 <= d.year <= 9999 && ValidDate(d)
    ensures IndexDateKey(d) == IsoDate(d)
  {
    NatToStringLength(d.year, 4);
    assert PaddedNat(d.year, 4) == NatToString(d.year);
  }
}
