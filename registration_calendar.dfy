/** The booking calendar: a month grid of leading empty cells and the month's dates,
    month stepping by date-fns `addMonths`, a caller-supplied hook that disables dates,
    and a click that hands an enabled date to the caller. */
module RegistrationCalendar {
  import opened Wrappers
  import opened Gregorian

  /** date-fns `isSameMonth`. */
  predicate IsSameMonth(a: Date, b: Date) {
    a.year == b.year && a.month == b.month
  }

  /** `generateDays()`: `getDay` of the month's first empty cells, then every date
      from the first to the last of the month, one day apart. */
  method GenerateDays(currentMonth: Date) returns (days: seq<Option<Date>>)
    requires Valid(currentMonth)
    ensures var startDay := Weekday(Date(currentMonth.year, currentMonth.month, 1));
      0 <= startDay < 7 &&
      |days| == startDay + DaysInMonth(currentMonth.year, currentMonth.month) &&
      (forall i :: 0 <= i < startDay ==> days[i] == None) &&
      (forall i :: startDay <= i < |days| ==>
        days[i] == Some(Date(currentMonth.year, currentMonth.month, i - startDay + 1)))
    ensures forall i :: 0 <= i < |days| && days[i].Some? ==>
      Valid(days[i].value) && IsSameMonth(days[i].value, currentMonth)
    ensures forall i :: 0 <= i < |days| - 1 && days[i].Some? ==>
      days[i + 1].Some? && DayNumber(days[i + 1].value) == DayNumber(days[i].value) + 1
  {
    var y, m := currentMonth.year, currentMonth.month;
    var last := DaysInMonth(y, m);
    // startOfMonth is the first at midnight, endOfMonth the last millisecond of the last day
    var startDate := Date(y, m, 1);
    var endDate := Instant(Date(y, m, last), MsPerDay - 1);
    var startDay := Weekday(startDate);
    days := [];
    for i := 0 to startDay
      invariant |days| == i
      invariant forall k :: 0 <= k < i ==> days[k] == None
    {
      days := days + [None];
    }
    NextMonthDayNumber(y, m);
    var day := startDate;
    ghost var n := 1;
    while InstantLess(Instant(day, 0), endDate) || day == endDate.date
      invariant 1 <= n <= last + 1
      invariant Valid(day)
      invariant n <= last ==> day == Date(y, m, n)
      invariant n == last + 1 ==> day == if m < 11 then Date(y, m + 1, 1) else Date(y + 1, 0, 1)
      invariant |days| == startDay + n - 1
      invariant forall k :: 0 <= k < startDay ==> days[k] == None
      invariant forall k :: startDay <= k < |days| ==> days[k] == Some(Date(y, m, k - startDay + 1))
      decreases last + 1 - n
    {
      days := days + [Some(day)];
      day := NextDay(day);
      n := n + 1;
    }
  }

  /** `isDateDisabled`: the caller's predicate decides; without one nothing is disabled. */
  predicate IsDateDisabled(disabled: Option<Date -> bool>, date: Date) {
    match disabled
    case None => false
    case Some(p) => p(date)
  }

  /** Without a `disabled` predicate no date is disabled, and with one the calendar
      adds no policy of its own. */
  lemma DisabledOnlyByHook(disabled: Option<Date -> bool>, date: Date)
    ensures disabled.None? ==> !IsDateDisabled(disabled, date)
    ensures disabled.Some? ==> (IsDateDisabled(disabled, date) <==> disabled.value(date))
  {
  }

  /** What clicking a date cell does: the date handed to `onSelect`, or `None` when
      `onSelect` is not called. `hasOnSelect` says whether the caller supplied it. */
  function Click(date: Date, hasOnSelect: bool, disabled: Option<Date -> bool>): (call: Option<Date>)
    ensures call.Some? <==> hasOnSelect && !IsDateDisabled(disabled, date)
    ensures call.Some? ==> call.value == date
  {
    if IsDateDisabled(disabled, date) then None
    else if hasOnSelect then Some(date)
    else None
  }

  /** The flags each date cell is drawn with. */
  datatype CellView = CellView(isSelected: bool, isDisabled: bool, isCurrentMonth: bool, isToday: bool)

  /** The flags of the cell for `date`: selected when it is the selected day (date-fns
      `isSameDay`), disabled by the hook, dimmed outside the displayed month, ringed on today. */
  function ViewCell(date: Date, selected: Option<Date>, disabled: Option<Date -> bool>,
                    currentMonth: Date, today: Date): (v: CellView)
    ensures v.isSelected <==> selected == Some(date)
    ensures v.isDisabled <==> IsDateDisabled(disabled, date)
    ensures v.isCurrentMonth <==> IsSameMonth(date, currentMonth)
    ensures v.isToday <==> date == today
  {
    CellView(
      selected.Some? && selected.value.day == date.day && selected.value.month == date.month
        && selected.value.year == date.year,
      IsDateDisabled(disabled, date),
      IsSameMonth(date, currentMonth),
      today.day == date.day && today.month == date.month && today.year == date.year)
  }

  /** Navigation moves exactly one month, so next then previous shows the same month
      and year again. */
  lemma {:induction false} NextThenPreviousMonth(d: Date)
    requires Valid(d)
    ensures IsSameMonth(AddMonths(AddMonths(d, 1), -1), d)
    ensures IsSameMonth(AddMonths(AddMonths(d, -1), 1), d)
  {
    MonthIndexInjective(AddMonths(AddMonths(d, 1), -1), d);
    MonthIndexInjective(AddMonths(AddMonths(d, -1), 1), d);
  }

  /** The day of month is not always restored: from 31 January 2024, next gives
      29 February and previous then gives 29 January. */
  lemma NavigationClampsDay()
    ensures AddMonths(Date(2024, 0, 31), 1) == Date(2024, 1, 29)
    ensures AddMonths(Date(2024, 1, 29), -1) == Date(2024, 0, 29)
  {
    assert MonthStart(2024, 1) == Date(2024, 1, 1);
    assert MonthStart(2024, 0) == Date(2024, 0, 1);
    assert IsLeapYear(2024);
  }

  /** The component: the displayed month; the props `selected`, `onSelect` (present or
      not) and `disabled` do not change while it is shown. */
  class CustomCalendar {
    var currentMonth: Date
    const selected: Option<Date>
    const hasOnSelect: bool
    const disabled: Option<Date -> bool>

    /** The calendar opens on today, a valid date. */
    constructor (today: Date, selected: Option<Date>, hasOnSelect: bool, disabled: Option<Date -> bool>)
      requires Valid(today)
      ensures currentMonth == today
      ensures this.selected == selected && this.hasOnSelect == hasOnSelect && this.disabled == disabled
    {
      currentMonth := today;
      this.selected := selected;
      this.hasOnSelect := hasOnSelect;
      this.disabled := disabled;
    }

    /** `handlePreviousMonth`: `subMonths(currentMonth, 1)`. */
    method HandlePreviousMonth()
      requires Valid(currentMonth)
      modifies this
      ensures Valid(currentMonth) && MonthIndex(currentMonth) == MonthIndex(old(currentMonth)) - 1
      ensures currentMonth == AddMonths(old(currentMonth), -1)
    {
      currentMonth := AddMonths(currentMonth, -1);
    }

    /** `handleNextMonth`: `addMonths(currentMonth, 1)`. */
    method HandleNextMonth()
      requires Valid(currentMonth)
      modifies this
      ensures Valid(currentMonth) && MonthIndex(currentMonth) == MonthIndex(old(currentMonth)) + 1
      ensures currentMonth == AddMonths(old(currentMonth), 1)
    {
      currentMonth := AddMonths(currentMonth, 1);
    }
  }
}
