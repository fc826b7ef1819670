/** The event record shared by the backend and the frontend, and the date matching
    the calendars apply to it: a record falls on a calendar day when its parsed date
    has the same day of month, month and full year. */
module EventRecords {
  import opened Wrappers
  import opened Gregorian
  import Seqs

  datatype Category = Workshop | Performance | Meeting | Exhibition

  /** One event; `date` is free text such as "May 15, 2025" or "June 1-15, 2025".
      The description text is not carried: nothing in the model reads it. */
  datatype EventRecord = EventRecord(
    id: string,
    title: string,
    date: string,
    time: string,
    location: string,
    image: string,
    category: Category,
    capacity: int)

  /** A date parser in the role of `new Date(text)`: `None` stands for an Invalid Date,
      whose getters all return NaN. The parser itself is supplied by the caller. */
  type Parser = string -> Option<Instant>

  /** The record's parsed date has the same `getDate()`, `getMonth()` and
      `getFullYear()` as `d`; an unparseable date matches nothing. */
  predicate OnDay(parse: Parser, e: EventRecord, d: Date) {
    match parse(e.date)
    case None => false
    case Some(t) => t.date.day == d.day && t.date.month == d.month && t.date.year == d.year
  }

  /** `events.filter(...)`: the records on day `d`, in their original order. */
  function EventsOn(parse: Parser, events: seq<EventRecord>, d: Date): (r: seq<EventRecord>)
    ensures forall i :: 0 <= i < |r| ==> r[i] in events && OnDay(parse, r[i], d)
    ensures forall i :: 0 <= i < |events| && OnDay(parse, events[i], d) ==> events[i] in r
  {
    Seqs.Filter(e => OnDay(parse, e, d), events)
  }

  /** `events.some(...)`: some record falls on day `d`. */
  predicate AnyOn(parse: Parser, events: seq<EventRecord>, d: Date) {
    exists i :: 0 <= i < |events| && OnDay(parse, events[i], d)
  }

  /** A day is highlighted exactly when selecting it lists at least one record. */
  lemma AnyOnIffEventsOn(parse: Parser, events: seq<EventRecord>, d: Date)
    ensures AnyOn(parse, events, d) <==> EventsOn(parse, events, d) != []
  {
    Seqs.FilterNonEmptyIffSome(e => OnDay(parse, e, d), events);
  }

  /** The listing is stable: the records of a longer list that fall on `d` are those of
      its first part followed by those of its second part. */
  lemma EventsOnAppend(parse: Parser, a: seq<EventRecord>, b: seq<EventRecord>, d: Date)
    ensures EventsOn(parse, a + b, d) == EventsOn(parse, a, d) + EventsOn(parse, b, d)
  {
    Seqs.FilterAppend(e => OnDay(parse, e, d), a, b);
  }

  /** Time of day is ignored: two records whose dates parse to instants on the same
      calendar day match the same days. */
  lemma OnDayIgnoresTimeOfDay(parse: Parser, e1: EventRecord, e2: EventRecord, d: Date)
    requires parse(e1.date).Some? && parse(e2.date).Some?
    requires parse(e1.date).value.date == parse(e2.date).value.date
    ensures OnDay(parse, e1, d) <==> OnDay(parse, e2, d)
  {
  }

  /** A record whose date does not parse is never listed for any day. */
  lemma UnparseableNeverListed(parse: Parser, events: seq<EventRecord>, e: EventRecord, d: Date)
    requires parse(e.date).None?
    ensures e !in EventsOn(parse, events, d)
  {
  }
}
