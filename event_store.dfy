/** The selection store: the selected calendar day and the events listed for it, two
    fields each overwritten by its own setter. */
module EventStore {
  import opened Wrappers
  import opened Gregorian
  import opened EventRecords

  class Store {
    var selectedDate: Option<Date>
    var selectedEvents: seq<EventRecord>

    /** The store starts with no date and no events. */
    constructor ()
      ensures selectedDate == None && selectedEvents == []
    {
      selectedDate := None;
      selectedEvents := [];
    }

    /** Replaces the date and leaves the events alone; the setter only takes a date,
        so once set the date is never cleared. Repeating it changes nothing. */
    method SetSelectedDate(date: Date)
      modifies this
      ensures selectedDate == Some(date) && selectedEvents == old(selectedEvents)
      ensures old(selectedDate) == Some(date) ==> unchanged(this)
    {
      selectedDate := Some(date);
    }

    /** Replaces the events and leaves the date alone. Repeating it changes nothing. */
    method SetSelectedEvents(events: seq<EventRecord>)
      modifies this
      ensures selectedEvents == events && selectedDate == old(selectedDate)
      ensures old(selectedEvents) == events ==> unchanged(this)
    {
      selectedEvents := events;
    }

    /** The events are those of the selected date. The store does not keep this by
        itself; a caller that sets both fields does. */
    ghost predicate ConsistentWith(parse: Parser, events: seq<EventRecord>)
      reads this
    {
      selectedDate.Some? ==> selectedEvents == EventsOn(parse, events, selectedDate.value)
    }
  }
}
