/** Proleptic Gregorian calendar arithmetic, in the terms JavaScript's `Date` getters
    and date-fns use: a day is (full year, month 0..11, day of month), weekdays count
    from 0 = Sunday. Time zones are not modelled: every date is a local date. */
module Gregorian {

  /** A calendar day: `getFullYear()`, `getMonth()` (0 = January) and `getDate()`. */
  datatype Date = Date(year: int, month: int, day: int)

  const MsPerDay: int := 86400000

  /** A moment in local time: its calendar day and the milliseconds since that day's
      midnight. Parsed timestamps and `new Date()` are instants. */
  datatype Instant = Instant(date: Date, ms: int)

  predicate IsLeapYear(y: int) {
    y % 4 == 0 && (y % 100 != 0 || y % 400 == 0)
  }

  /** The number of days of a month (0 = January). */
  function DaysInMonth(year: int, month: int): (n: int)
    requires 0 <= month < 12
    ensures 28 <= n <= 31
  {
    if month == 1 then (if IsLeapYear(year) then 29 else 28)
    else if month == 3 || month == 5 || month == 8 || month == 10 then 30
    else 31
  }

  predicate Valid(d: Date) {
    0 <= d.month < 12 && 1 <= d.day <= DaysInMonth(d.year, d.month)
  }

  predicate ValidInstant(t: Instant) {
    Valid(t.date) && 0 <= t.ms < MsPerDay
  }

  /** The days of the year that come before the first of `month`; `month == 12`
      gives the length of the year. */
  function DaysBeforeMonth(year: int, month: int): int
    requires 0 <= month <= 12
  {
    var common := [0, 31, 59, 90, 120, 151, 181, 212, 243, 273, 304, 334, 365][month];
    if month >= 2 && IsLeapYear(year) then common + 1 else common
  }

  /** The days from 1 January of year 0 to 1 January of `year` (negative before year 0). */
  function DaysBeforeYear(year: int): int {
    365 * year + (year + 3) / 4 - (year + 99) / 100 + (year + 399) / 400
  }

  /** The number of days from 1 January of year 0 to `d`. */
  function DayNumber(d: Date): int
    requires Valid(d)
  {
    DaysBeforeYear(d.year) + DaysBeforeMonth(d.year, d.month) + d.day - 1
  }

  /** `getDay()`: the weekday, 0 = Sunday. 1 January of year 0 was a Saturday. */
  function Weekday(d: Date): (w: int)
    requires Valid(d)
    ensures 0 <= w < 7
  {
    (DayNumber(d) + 6) % 7
  }

  /** A month's days follow each other in the year's day count. */
  lemma DaysBeforeNextMonth(year: int, month: int)
    requires 0 <= month < 12
    ensures DaysBeforeMonth(year, month + 1) == DaysBeforeMonth(year, month) + DaysInMonth(year, month)
  {
  }

  /** A year has 366 days when it is a leap year and 365 otherwise. */
  lemma YearLength(year: int)
    ensures DaysBeforeMonth(year, 12) == if IsLeapYear(year) then 366 else 365
  {
  }

  /** Between `year + 3` and `year + 4` lies a multiple of 4 exactly when 4 divides `year`. */
  lemma MultiplesOf4(year: int)
    ensures (year + 4) / 4 - (year + 3) / 4 == if year % 4 == 0 then 1 else 0
  {
    assert year + 4 == 4 * (year / 4 + 1) + year % 4;
  }

  lemma MultiplesOf100(year: int)
    ensures (year + 100) / 100 - (year + 99) / 100 == if year % 100 == 0 then 1 else 0
  {
    assert year + 100 == 100 * (year / 100 + 1) + year % 100;
  }

  lemma MultiplesOf400(year: int)
    ensures (year + 400) / 400 - (year + 399) / 400 == if year % 400 == 0 then 1 else 0
  {
    assert year + 400 == 400 * (year / 400 + 1) + year % 400;
  }

  /** The leap rule's divisors nest: 400 | y implies 100 | y implies 4 | y. */
  lemma DivisorsNest(year: int)
    ensures year % 100 == 0 ==> year % 4 == 0
    ensures year % 400 == 0 ==> year % 100 == 0
  {
    if year % 100 == 0 {
      assert year == 4 * (25 * (year / 100));
    }
    if year % 400 == 0 {
      assert year == 100 * (4 * (year / 400));
    }
  }

  /** The year count advances by the length of the year. */
  lemma DaysBeforeNextYear(year: int)
    ensures DaysBeforeYear(year + 1) == DaysBeforeYear(year) + DaysBeforeMonth(year, 12)
  {
    MultiplesOf4(year);
    MultiplesOf100(year);
    MultiplesOf400(year);
    DivisorsNest(year);
    YearLength(year);
  }

  /** The first of the month after `(year, month)` comes `DaysInMonth(year, month)`
      days after the first of `(year, month)`. */
  lemma NextMonthDayNumber(year: int, month: int)
    requires 0 <= month < 12
    ensures var next := if month < 11 then Date(year, month + 1, 1) else Date(year + 1, 0, 1);
      Valid(next) &&
      DayNumber(next) == DayNumber(Date(year, month, 1)) + DaysInMonth(year, month)
  {
    if month < 11 {
      DaysBeforeNextMonth(year, month);
    } else {
      DaysBeforeNextYear(year);
    }
  }

  /** date-fns `addDays(d, 1)`: the next calendar day. */
  function NextDay(d: Date): (r: Date)
    requires Valid(d)
    ensures Valid(r) && DayNumber(r) == DayNumber(d) + 1
  {
    if d.day < DaysInMonth(d.year, d.month) then Date(d.year, d.month, d.day + 1)
    else
      NextMonthDayNumber(d.year, d.month);
      if d.month < 11 then Date(d.year, d.month + 1, 1) else Date(d.year + 1, 0, 1)
  }

  /** The calendar day before `d`; JavaScript's day 0 of a month is this day before
      the month's first. */
  function PrevDay(d: Date): (r: Date)
    requires Valid(d)
    ensures Valid(r) && DayNumber(r) == DayNumber(d) - 1
  {
    if d.day > 1 then Date(d.year, d.month, d.day - 1)
    else if d.month > 0 then
      var r := Date(d.year, d.month - 1, DaysInMonth(d.year, d.month - 1));
      NextMonthDayNumber(d.year, d.month - 1);
      r
    else
      NextMonthDayNumber(d.year - 1, 11);
      Date(d.year - 1, 11, 31)
  }

  /** Each next day is the next weekday. */
  lemma WeekdayOfNextDay(d: Date)
    requires Valid(d)
    ensures Weekday(NextDay(d)) == (Weekday(d) + 1) % 7
  {
    WeekShift(DayNumber(d) + 6, 1);
  }

  /** The position of a month in an unbounded count of months. */
  function MonthIndex(d: Date): int {
    d.year * 12 + d.month
  }

  /** JavaScript's `new Date(year, month, 1)`: a month outside 0..11 carries into the year. */
  function MonthStart(year: int, month: int): (d: Date)
    ensures Valid(d) && d.day == 1
    ensures MonthIndex(d) == year * 12 + month
  {
    Date(year + month / 12, month % 12, 1)
  }

  /** The weekday of the first of the next month continues the weekdays of this month. */
  lemma {:induction false} NextMonthWeekday(year: int, month: int)
    requires 0 <= month < 12
    ensures Weekday(MonthStart(year, month + 1)) == (Weekday(Date(year, month, 1)) + DaysInMonth(year, month)) % 7
  {
    NextMonthDayNumber(year, month);
    var next := if month < 11 then Date(year, month + 1, 1) else Date(year + 1, 0, 1);
    assert MonthStart(year, month + 1) == next;
    var n := DayNumber(Date(year, month, 1)) + 6;
    WeekShift(n, DaysInMonth(year, month));
  }

  /** Adding days after reducing to a weekday is adding them before. */
  lemma WeekShift(n: int, k: int)
    ensures (n % 7 + k) % 7 == (n + k) % 7
  {
    var q := n / 7;
    assert n == 7 * q + n % 7;
    assert n + k == 7 * q + (n % 7 + k);
  }

  /** date-fns `addMonths(d, k)`: the same day `k` months later, or the last day of
      that month when it is shorter. */
  function AddMonths(d: Date, k: int): (r: Date)
    requires Valid(d)
    ensures Valid(r) && MonthIndex(r) == MonthIndex(d) + k
    ensures r.day <= d.day
    ensures r.day == d.day || r.day == DaysInMonth(r.year, r.month)
  {
    var t := MonthStart(d.year, d.month + k);
    var last := DaysInMonth(t.year, t.month);
    Date(t.year, t.month, if d.day <= last then d.day else last)
  }

  /** Month indices determine the year and month. */
  lemma MonthIndexInjective(a: Date, b: Date)
    requires 0 <= a.month < 12 && 0 <= b.month < 12
    requires MonthIndex(a) == MonthIndex(b)
    ensures a.year == b.year && a.month == b.month
  {
  }

  /** Chronological order of calendar days (date-fns `isBefore` on midnights). */
  predicate DateLess(a: Date, b: Date) {
    a.year < b.year
    || (a.year == b.year && a.month < b.month)
    || (a.year == b.year && a.month == b.month && a.day < b.day)
  }

  /** Chronological order of instants (JavaScript's `<` on `Date` objects). */
  predicate InstantLess(a: Instant, b: Instant) {
    DateLess(a.date, b.date) || (a.date == b.date && a.ms < b.ms)
  }
}
