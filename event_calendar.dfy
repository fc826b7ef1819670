/** The events page calendar: event dates are rewritten before parsing (a date range
    keeps its start and is moved to 2023), a day is highlighted when it has events,
    and selecting a day lists its events. */
module EventCalendar {
  import opened Wrappers
  import opened Gregorian
  import opened EventRecords

  /** The position of the first `c` in `s`. */
  function FirstIndexOf(s: string, c: char): (i: nat)
    requires c in s
    ensures i < |s| && s[i] == c && c !in s[..i]
  {
    if s[0] == c then 0
    else
      assert c in s[1..] by { var k :| 0 <= k < |s| && s[k] == c; assert s[1..][k - 1] == c; }
      var i := 1 + FirstIndexOf(s[1..], c);
      assert s[..i] == [s[0]] + s[1..][..i - 1];
      i
  }

  /** The rewrite `parseDate` applies: a string containing "-" becomes its text before
      the first "-" followed by ", 2023" (`dateStr.split("-")[0] + ", 2023"`); any
      other string is left as it is. */
  function RewriteDateString(s: string): (r: string)
    ensures '-' !in s ==> r == s
    ensures '-' in s ==>
      exists k :: 0 <= k < |s| && s[k] == '-' && '-' !in s[..k] && r == s[..k] + ", 2023"
    ensures '-' !in r
  {
    if '-' in s then
      var k := FirstIndexOf(s, '-');
      s[..k] + ", 2023"
    else s
  }

  /** Rewriting twice is rewriting once: the rewritten string has no "-" left. */
  lemma RewriteIdempotent(s: string)
    ensures RewriteDateString(RewriteDateString(s)) == RewriteDateString(s)
  {
  }

  /** The first `c` is the one with no `c` before it. */
  lemma FirstIndexOfUnique(s: string, c: char, k: nat)
    requires k < |s| && s[k] == c && c !in s[..k]
    ensures FirstIndexOf(s, c) == k
  {
  }

  /** Text before the first "-" survives the rewrite and the rest becomes ", 2023":
      "June 1-15, 2025" is read as "June 1, 2023". */
  lemma RewriteAtFirstDash(start: string, rest: string)
    requires '-' !in start && rest != [] && rest[0] == '-'
    ensures RewriteDateString(start + rest) == start + ", 2023"
  {
    var s := start + rest;
    assert s[..|start|] == start;
    FirstIndexOfUnique(s, '-', |start|);
  }

  /** `parseDate`: the rewrite followed by the date parser. */
  function DateParser(parse: Parser): Parser {
    s => parse(RewriteDateString(s))
  }

  /** `parseDate` parses a text without "-" as it is, and a range such as
      "June 1-15, 2025" as its text before the first "-" followed by ", 2023". */
  lemma ParseDateRewritesRanges(parse: Parser, start: string, rest: string)
    requires '-' !in start
    ensures DateParser(parse)(start) == parse(start)
    ensures rest != [] && rest[0] == '-' ==> DateParser(parse)(start + rest) == parse(start + ", 2023")
  {
    assert RewriteDateString(start) == start;
    if rest != [] && rest[0] == '-' {
      RewriteAtFirstDash(start, rest);
    }
  }

  /** An event whose rewritten date does not parse is never listed nor highlighted. */
  lemma UnparseableExcluded(parse: Parser, events: seq<EventRecord>, e: EventRecord, d: Date)
    requires parse(RewriteDateString(e.date)).None?
    ensures e !in EventsOn(DateParser(parse), events, d)
    ensures !OnDay(DateParser(parse), e, d)
  {
    UnparseableNeverListed(DateParser(parse), events, e, d);
  }

  /** The component: the selected day (if any), the events listed for it, and the
      events it is given. */
  class EventCalendar {
    var date: Option<Date>
    var selectedEvents: seq<EventRecord>
    const events: seq<EventRecord>
    const parse: Parser

    /** Opens with today selected and nothing listed. */
    constructor (today: Date, events: seq<EventRecord>, parse: Parser)
      ensures date == Some(today) && selectedEvents == []
      ensures this.events == events && this.parse == parse
    {
      date := Some(today);
      selectedEvents := [];
      this.events := events;
      this.parse := parse;
    }

    /** `handleSelect`: records the selection; no day clears the list, a day lists
        exactly its events, in their original order. */
    method HandleSelect(selectedDate: Option<Date>)
      modifies this
      ensures date == selectedDate
      ensures selectedDate.None? ==> selectedEvents == []
      ensures selectedDate.Some? ==> selectedEvents == EventsOn(DateParser(parse), events, selectedDate.value)
    {
      date := selectedDate;
      if selectedDate.None? {
        selectedEvents := [];
        return;
      }
      var eventsOnDate := EventsOn(DateParser(parse), events, selectedDate.value);
      selectedEvents := eventsOnDate;
    }

    /** `hasEvents(day)`: true exactly when selecting the day would list some event. */
    predicate HasEvents(day: Date)
      reads this
      ensures HasEvents(day) <==> EventsOn(DateParser(parse), events, day) != []
    {
      AnyOnIffEventsOn(DateParser(parse), events, day);
      AnyOn(DateParser(parse), events, day)
    }
  }
}
