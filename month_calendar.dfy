/** The events calendar: a month grid of leading blanks and day cells, month stepping,
    and selecting a day, which writes the day and its events to the selection store. */
module MonthCalendar {
  import opened Wrappers
  import opened Gregorian
  import opened EventRecords
  import opened EventStore

  /** One grid cell: a leading blank, or a day of the month, highlighted when it has events. */
  datatype Cell = Blank | DayCell(day: int, hasEvents: bool)

  /** `new Date(year, month + 1, 0).getDate()`: day 0 of the next month is the last
      day of this one, so this is the length of the month. */
  function DaysInMonthViaDayZero(year: int, month: int): (n: int)
    requires 0 <= month < 12
    ensures n == DaysInMonth(year, month)
  {
    PrevDay(MonthStart(year, month + 1)).day
  }

  /** The grid of a month: as many blanks as the weekday of the first (0 = Sunday,
      the "Dom" column), then one cell per day in order, and no trailing padding. */
  method CalendarDays(year: int, month: int, parse: Parser, events: seq<EventRecord>)
    returns (cells: seq<Cell>)
    requires 0 <= month < 12
    ensures var blanks := Weekday(Date(year, month, 1));
      0 <= blanks < 7 &&
      |cells| == blanks + DaysInMonth(year, month) &&
      (forall i :: 0 <= i < blanks ==> cells[i] == Blank) &&
      (forall i :: blanks <= i < |cells| ==>
        cells[i] == DayCell(i - blanks + 1, AnyOn(parse, events, Date(year, month, i - blanks + 1))))
  {
    var daysInMonth := DaysInMonthViaDayZero(year, month);
    var firstDayOfMonth := Weekday(MonthStart(year, month));
    cells := [];
    for i := 0 to firstDayOfMonth
      invariant |cells| == i
      invariant forall k :: 0 <= k < i ==> cells[k] == Blank
    {
      cells := cells + [Blank];
    }
    for day := 1 to daysInMonth + 1
      invariant |cells| == firstDayOfMonth + day - 1
      invariant forall k :: 0 <= k < firstDayOfMonth ==> cells[k] == Blank
      invariant forall k :: firstDayOfMonth <= k < |cells| ==>
        cells[k] == DayCell(k - firstDayOfMonth + 1, AnyOn(parse, events, Date(year, month, k - firstDayOfMonth + 1)))
    {
      var hasEventsForDay := AnyOn(parse, events, Date(year, month, day));
      cells := cells + [DayCell(day, hasEventsForDay)];
    }
  }

  /** February 2024 starts on a Thursday and has 29 days: 4 blanks and 29 cells. */
  lemma February2024()
    ensures Weekday(Date(2024, 1, 1)) == 4 && DaysInMonth(2024, 1) == 29
  {
  }

  /** `handlePrevMonth`: the first of the previous month. */
  function PrevMonth(d: Date): (r: Date)
    ensures Valid(r) && r.day == 1 && MonthIndex(r) == MonthIndex(d) - 1
  {
    MonthStart(d.year, d.month - 1)
  }

  /** `handleNextMonth`: the first of the next month. */
  function NextMonth(d: Date): (r: Date)
    ensures Valid(r) && r.day == 1 && MonthIndex(r) == MonthIndex(d) + 1
  {
    MonthStart(d.year, d.month + 1)
  }

  /** Stepping back from January lands on December of the year before, and forward
      from December on January of the year after; other months keep the year. */
  lemma MonthRollover(d: Date)
    requires 0 <= d.month < 12
    ensures PrevMonth(d) == if d.month == 0 then Date(d.year - 1, 11, 1) else Date(d.year, d.month - 1, 1)
    ensures NextMonth(d) == if d.month == 11 then Date(d.year + 1, 0, 1) else Date(d.year, d.month + 1, 1)
  {
  }

  /** Next then previous shows the same month again, from its first day. */
  lemma {:induction false} NextThenPrevMonth(d: Date)
    requires 0 <= d.month < 12
    ensures PrevMonth(NextMonth(d)) == Date(d.year, d.month, 1)
    ensures NextMonth(PrevMonth(d)) == Date(d.year, d.month, 1)
  {
    MonthIndexInjective(PrevMonth(NextMonth(d)), d);
    MonthIndexInjective(NextMonth(PrevMonth(d)), d);
  }

  /** The component: the displayed month, the events it shows and the shared store. */
  class Calendar {
    var currentDate: Date
    const events: seq<EventRecord>
    const parse: Parser
    const store: Store

    /** The calendar opens on today's month. */
    constructor (today: Date, events: seq<EventRecord>, parse: Parser, store: Store)
      requires Valid(today)
      ensures currentDate == today && this.events == events && this.parse == parse && this.store == store
    {
      currentDate := today;
      this.events := events;
      this.parse := parse;
      this.store := store;
    }

    method HandlePrevMonth()
      modifies this
      ensures currentDate == PrevMonth(old(currentDate))
    {
      currentDate := MonthStart(currentDate.year, currentDate.month - 1);
    }

    method HandleNextMonth()
      modifies this
      ensures currentDate == NextMonth(old(currentDate))
    {
      currentDate := MonthStart(currentDate.year, currentDate.month + 1);
    }

    /** `hasEvents(day)`: true exactly when selecting the day would list some event. */
    predicate HasEvents(day: int)
      reads this
      ensures HasEvents(day) <==> EventsOn(parse, events, Date(currentDate.year, currentDate.month, day)) != []
    {
      var d := Date(currentDate.year, currentDate.month, day);
      AnyOnIffEventsOn(parse, events, d);
      AnyOn(parse, events, d)
    }

    /** `handleDateSelect(day)`: stores the day, then exactly the events on that day in
        their original order, which leaves the store consistent. */
    method HandleDateSelect(day: int)
      modifies store
      ensures store.selectedDate == Some(Date(currentDate.year, currentDate.month, day))
      ensures store.selectedEvents == EventsOn(parse, events, Date(currentDate.year, currentDate.month, day))
      ensures store.ConsistentWith(parse, events)
    {
      var selectedDate := Date(currentDate.year, currentDate.month, day);
      store.SetSelectedDate(selectedDate);
      var filteredEvents := EventsOn(parse, events, selectedDate);
      store.SetSelectedEvents(filteredEvents);
    }
  }
}
