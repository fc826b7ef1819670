/** The backend endpoints the site's core uses: the fixed event list, lookup of one
    event by id, the available booking slots and the booking confirmation. */
module Backend {
  import opened Wrappers
  import opened Gregorian
  import opened Text
  import opened EventRecords
  import BookEvents

  /** `get_events()`: the six events, e1 to e6. */
  function GetEvents(): seq<EventRecord> {
    [
      EventRecord("e1", "Bolivian Coffee Tasting Workshop", "May 15, 2025", "4:00 PM - 6:00 PM", "Main Hall",
        "/events/event-1.jpg", Workshop, 20),
      EventRecord("e2", "Andean Music Performance", "May 20, 2025", "7:00 PM - 9:00 PM", "Outdoor Patio",
        "/events/event-2.jpg", Performance, 50),
      EventRecord("e3", "Bolivian History Book Club", "May 25, 2025", "6:00 PM - 8:00 PM", "Library Corner",
        "/events/event-3.jpg", Meeting, 15),
      EventRecord("e4", "Traditional Weaving Exhibition", "June 1-15, 2025", "10:00 AM - 8:00 PM", "Gallery Space",
        "/events/event-4.jpg", Exhibition, 100),
      EventRecord("e5", "Bolivian Cooking Class: Salteñas", "June 10, 2025", "2:00 PM - 5:00 PM", "Kitchen",
        "/events/event-5.jpg", Workshop, 12),
      EventRecord("e6", "Political Discussion: Bolivia's Future", "June 18, 2025", "6:30 PM - 8:30 PM", "Main Hall",
        "/events/event-6.jpg", Meeting, 40)
    ]
  }

  /** The event ids are distinct, so at most one event has a given id. */
  lemma EventIdsDistinct()
    ensures |GetEvents()| == 6
    ensures forall i, j :: 0 <= i < j < |GetEvents()| ==> GetEvents()[i].id != GetEvents()[j].id
  {
  }

  /** The answer of `get_event`: the event, or the not-found body with status 404. */
  datatype EventLookup = Found(event: EventRecord) | NotFound(detail: string, status: int)

  /** `get_event(event_id)`: the first event whose id equals `eventId`, or not found
      when none does. */
  method GetEvent(eventId: string) returns (r: EventLookup)
    ensures r.Found? ==> (r.event.id == eventId &&
      exists k :: 0 <= k < |GetEvents()| && GetEvents()[k] == r.event &&
        forall j :: 0 <= j < k ==> GetEvents()[j].id != eventId)
    ensures r.NotFound? ==> (r == NotFound("Event not found", 404) &&
      forall k :: 0 <= k < |GetEvents()| ==> GetEvents()[k].id != eventId)
  {
    var events := GetEvents();
    for i := 0 to |events|
      invariant forall j :: 0 <= j < i ==> events[j].id != eventId
    {
      if events[i].id == eventId {
        return Found(events[i]);
      }
    }
    return NotFound("Event not found", 404);
  }

  /** One entry of `available_slots`. */
  datatype DaySlots = DaySlots(date: string, slots: seq<string>)

  /** `get_available_slots(date)`: one entry for `date`, or for "2024-07-01" when no
      date or an empty one is given, always with the same five slots. */
  function GetAvailableSlots(date: Option<string>): (r: seq<DaySlots>)
    ensures |r| == 1
    ensures date.Some? && date.value != "" ==> r[0].date == date.value
    ensures date.None? || date.value == "" ==> r[0].date == "2024-07-01"
  {
    [DaySlots(if date.Some? && date.value != "" then date.value else "2024-07-01",
              ["09:00", "10:00", "11:00", "14:00", "15:00"])]
  }

  /** The slots are on the hour, in increasing order, and each is one of the times
      the booking page offers. */
  lemma {:induction false} SlotsAreBookingTimes(date: Option<string>)
    ensures var slots := GetAvailableSlots(date)[0].slots;
      |slots| == 5 &&
      slots == [BookEvents.Slot(18), BookEvents.Slot(20), BookEvents.Slot(22), BookEvents.Slot(28), BookEvents.Slot(30)]
  {
    BookEvents.SlotChars(18);
    BookEvents.SlotChars(20);
    BookEvents.SlotChars(22);
    BookEvents.SlotChars(28);
    BookEvents.SlotChars(30);
  }

  /** A moment as Python's `datetime` holds it (month 1..12). */
  datatype DateTime = DateTime(year: int, month: int, day: int, hour: int, minute: int, second: int)

  predicate ValidDateTime(t: DateTime) {
    1 <= t.year <= 9999 && 1 <= t.month <= 12 && 1 <= t.day <= DaysInMonth(t.year, t.month - 1)
    && 0 <= t.hour < 24 && 0 <= t.minute < 60 && 0 <= t.second < 60
  }

  /** `strftime("%Y%m%d%H%M%S")`: the fields zero-padded to 4, 2, 2, 2, 2 and 2 digits. */
  function Timestamp(t: DateTime): string
    requires ValidDateTime(t)
  {
    PadDigits(t.year, 4) + PadDigits(t.month, 2) + PadDigits(t.day, 2)
      + PadDigits(t.hour, 2) + PadDigits(t.minute, 2) + PadDigits(t.second, 2)
  }

  function BookingId(t: DateTime): string
    requires ValidDateTime(t)
  {
    "booking_" + Timestamp(t)
  }

  /** Reads a booking id back into the moment it was issued. */
  function ParseBookingId(s: string): Option<DateTime> {
    if |s| == 22 && s[..8] == "booking_" && forall i :: 8 <= i < 22 ==> IsDigit(s[i]) then
      assert forall i :: 0 <= i < 4 ==> s[8..12][i] == s[8 + i];
      assert forall i :: 0 <= i < 2 ==>
        (s[12..14][i] == s[12 + i] && s[14..16][i] == s[14 + i] && s[16..18][i] == s[16 + i]
         && s[18..20][i] == s[18 + i] && s[20..22][i] == s[20 + i]);
      var t := DateTime(DecimalValue(s[8..12]), DecimalValue(s[12..14]), DecimalValue(s[14..16]),
                        DecimalValue(s[16..18]), DecimalValue(s[18..20]), DecimalValue(s[20..22]));
      if ValidDateTime(t) then Some(t) else None
    else None
  }

  /** Where each field sits in a booking id. */
  lemma FieldsOfBookingId(t: DateTime)
    requires ValidDateTime(t)
    ensures var s := BookingId(t);
      |s| == 22 && s[..8] == "booking_"
      && s[8..12] == PadDigits(t.year, 4) && s[12..14] == PadDigits(t.month, 2)
      && s[14..16] == PadDigits(t.day, 2) && s[16..18] == PadDigits(t.hour, 2)
      && s[18..20] == PadDigits(t.minute, 2) && s[20..22] == PadDigits(t.second, 2)
  {
    var y, mo, d := PadDigits(t.year, 4), PadDigits(t.month, 2), PadDigits(t.day, 2);
    var h, mi, se := PadDigits(t.hour, 2), PadDigits(t.minute, 2), PadDigits(t.second, 2);
    var s := BookingId(t);
    assert s == "booking_" + y + mo + d + h + mi + se;
  }

  /** A booking id has 22 characters and reads back as the moment it was issued. */
  lemma {:induction false} BookingIdRoundTrip(t: DateTime)
    requires ValidDateTime(t)
    ensures |BookingId(t)| == 22
    ensures ParseBookingId(BookingId(t)) == Some(t)
  {
    FieldsOfBookingId(t);
    assert Pow10(4) == 10000 && Pow10(2) == 100;
    DecimalValueOfPadDigits(t.year, 4);
    DecimalValueOfPadDigits(t.month, 2);
    DecimalValueOfPadDigits(t.day, 2);
    DecimalValueOfPadDigits(t.hour, 2);
    DecimalValueOfPadDigits(t.minute, 2);
    DecimalValueOfPadDigits(t.second, 2);
    var s := BookingId(t);
    assert forall i :: 8 <= i < 22 ==> IsDigit(s[i]) by {
      forall i | 8 <= i < 22 ensures IsDigit(s[i]) {
        if i < 12 { assert s[i] == s[8..12][i - 8]; }
        else if i < 14 { assert s[i] == s[12..14][i - 12]; }
        else if i < 16 { assert s[i] == s[14..16][i - 14]; }
        else if i < 18 { assert s[i] == s[16..18][i - 16]; }
        else if i < 20 { assert s[i] == s[18..20][i - 18]; }
        else { assert s[i] == s[20..22][i - 20]; }
      }
    }
  }

  /** The body `book_event` accepts; it is not stored. */
  datatype EventBooking = EventBooking(
    eventName: string, description: string, date: string, startTime: string, endTime: string,
    attendees: int, organizer: string, contactEmail: string)

  datatype BookingResponse = BookingResponse(status: string, message: string, bookingId: string)

  /** `book_event`: always a success whose id is "booking_" and the time of the call. */
  function BookEvent(booking: EventBooking, now: DateTime): (r: BookingResponse)
    requires ValidDateTime(now)
    ensures r.status == "success"
    ensures |r.bookingId| == 22 && r.bookingId[..8] == "booking_"
    ensures ParseBookingId(r.bookingId) == Some(now)
  {
    BookingIdRoundTrip(now);
    BookingResponse("success", "Event booked successfully", BookingId(now))
  }
}
