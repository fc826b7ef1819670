/** The booking page: a date picked on the booking calendar (past dates disabled), a
    start and an end time chosen from 48 half-hour options, and "continue", which saves
    the three choices and moves to the details page only when all three are present. */
module BookEvents {
  import opened Wrappers
  import opened Gregorian
  import opened Text
  import Seqs
  import RegistrationCalendar

  /** The `k`-th time option as the clock reads it: hour `k / 2` in two digits, then
      ":00" for even `k` and ":30" for odd `k`. */
  function Slot(k: nat): string
    requires k < 48
  {
    PadDigits(k / 2, 2) + ":" + (if k % 2 == 0 then "00" else "30")
  }

  /** The characters of a time option. */
  lemma SlotChars(k: nat)
    requires k < 48
    ensures Slot(k) == [DigitChar(k / 2 / 10), DigitChar(k / 2 % 10), ':', if k % 2 == 0 then '0' else '3', '0']
  {
    var h := k / 2;
    assert PadDigits(h / 10, 1) == [DigitChar(h / 10)];
  }

  /** Every option has five characters, and string order on options is clock order,
      so comparing them with `>` compares times. */
  lemma {:induction false} SlotOrder(j: nat, k: nat)
    requires j < 48 && k < 48
    ensures |Slot(j)| == 5
    ensures Less(Slot(j), Slot(k)) <==> j < k
  {
    SlotChars(j);
    SlotChars(k);
    var a, b := Slot(j), Slot(k);
    var hj, hk := j / 2, k / 2;
    if j == k {
      LessIrreflexive(a);
    } else if hj / 10 != hk / 10 {
      LessAtFirstDifference(a, b, 0);
    } else if hj % 10 != hk % 10 {
      assert a[..1] == b[..1];
      LessAtFirstDifference(a, b, 1);
    } else {
      assert hj == hk;
      assert a[..3] == b[..3];
      LessAtFirstDifference(a, b, 3);
    }
  }

  /** The list the page offers. */
  predicate IsTimeOptions(options: seq<string>) {
    |options| == 48 && forall k :: 0 <= k < 48 ==> options[k] == Slot(k)
  }

  /** `timeOptions`: for each hour 0..23 and each minute of [0, 30], the hour and the
      minute padded to two digits and joined by ":". */
  method TimeOptions() returns (options: seq<string>)
    ensures IsTimeOptions(options)
  {
    options := [];
    for hour := 0 to 24
      invariant |options| == 2 * hour
      invariant forall k :: 0 <= k < |options| ==> options[k] == Slot(k)
    {
      var minutes := [0, 30];
      for j := 0 to 2
        invariant |options| == 2 * hour + j
        invariant forall k :: 0 <= k < |options| ==> options[k] == Slot(k)
      {
        var minute := minutes[j];
        var formattedHour := PadStart(ToDecimal(hour), 2, '0');
        var formattedMinute := PadStart(ToDecimal(minute), 2, '0');
        TwoDigitPadStart(hour);
        assert formattedMinute == if j == 0 then "00" else "30";
        assert (2 * hour + j) / 2 == hour && (2 * hour + j) % 2 == j;
        options := options + [formattedHour + ":" + formattedMinute];
      }
    }
  }

  /** JavaScript truthiness of an optional string: present and not empty. */
  predicate Truthy(s: Option<string>) {
    s.Some? && s.value != ""
  }

  /** The end-time options: those after the start time, or all of them with no start. */
  function EndTimeOptions(options: seq<string>, startTime: Option<string>): seq<string> {
    Seqs.Filter(t => !Truthy(startTime) || Less(startTime.value, t), options)
  }

  /** With the start at option `s`, the end-time select is enabled and its options are
      exactly the options after `s`: the start itself is never offered and "23:30"
      leaves none. */
  lemma EndTimesAfterStart(options: seq<string>, s: nat)
    requires IsTimeOptions(options) && s < 48
    ensures !EndSelectDisabled(Some(Slot(s)))
    ensures EndTimeOptions(options, Some(Slot(s))) == options[s + 1..]
  {
    SlotOrder(s, s);
    var p := t => !Truthy(Some(Slot(s))) || Less(Slot(s), t);
    forall i | 0 <= i < |options|
      ensures p(options[i]) <==> s + 1 <= i
    {
      SlotOrder(s, i);
    }
    Seqs.FilterSuffix(p, options, s + 1);
  }

  /** With no start time the end-time select is disabled, although its filter would
      offer every option. */
  lemma EndTimesWithoutStart(options: seq<string>)
    ensures EndSelectDisabled(None)
    ensures EndTimeOptions(options, None) == options
  {
    Seqs.FilterKeepsAll(t => !Truthy(None) || Less(None.value, t), options);
  }

  /** `disabled={!startTime}`: the end-time select is disabled until a start time is
      chosen. */
  predicate EndSelectDisabled(startTime: Option<string>) {
    !Truthy(startTime)
  }

  /** The guard of `handleContinue`. */
  predicate CanContinue(date: Option<Date>, startTime: Option<string>, endTime: Option<string>) {
    date.Some? && Truthy(startTime) && Truthy(endTime)
  }

  /** The `disabled` condition of the Continue button. */
  predicate ContinueDisabled(date: Option<Date>, startTime: Option<string>, endTime: Option<string>) {
    date.None? || !Truthy(startTime) || !Truthy(endTime)
  }

  /** The button is disabled exactly when the guard would refuse. */
  lemma ContinueButtonMatchesGuard(date: Option<Date>, startTime: Option<string>, endTime: Option<string>)
    ensures ContinueDisabled(date, startTime, endTime) <==> !CanContinue(date, startTime, endTime)
  {
  }

  /** The guard checks presence only: an end time before the start time passes, while
      a missing date or an empty time string, which JavaScript treats as false, does not. */
  lemma GuardIgnoresOrder(d: Date)
    ensures Less("09:00", "10:00")
    ensures CanContinue(Some(d), Some("10:00"), Some("09:00"))
    ensures !CanContinue(None, Some("10:00"), Some("11:00"))
    ensures !CanContinue(Some(d), Some(""), Some("11:00")) && !CanContinue(Some(d), Some("10:00"), Some(""))
  {
    LessAtFirstDifference("09:00", "10:00", 0);
  }

  /** The `disabled` hook the page gives the calendar: `date < new Date()`, where the
      cell is the midnight that starts its day and `now` is the moment of rendering. */
  function PastDisabled(now: Instant): Date -> bool {
    d => InstantLess(Instant(d, 0), now)
  }

  /** Past days are disabled, later days are not, and today is disabled except at
      exactly midnight. */
  lemma {:induction false} TodayDisabledUnlessMidnight(now: Instant, d: Date)
    requires ValidInstant(now)
    ensures PastDisabled(now)(now.date) <==> now.ms > 0
    ensures DateLess(d, now.date) ==> PastDisabled(now)(d)
    ensures DateLess(now.date, d) ==> !PastDisabled(now)(d)
  {
  }

  /** What "continue" saves under the keys eventDate, eventStartTime and eventEndTime. */
  datatype SavedBooking = SavedBooking(eventDate: Date, eventStartTime: string, eventEndTime: string)

  const DetailsRoute: string := "/events/book_events/event_details"

  /** The page: its three choices, what it saved and where it navigated. */
  class DateTimePage {
    var date: Option<Date>
    var startTime: Option<string>
    var endTime: Option<string>
    var saved: Option<SavedBooking>
    var route: Option<string>

    constructor ()
      ensures date == None && startTime == None && endTime == None
      ensures saved == None && route == None
    {
      date, startTime, endTime := None, None, None;
      saved, route := None, None;
    }

    /** A click on a calendar cell, with `onSelect = setDate` and the past disabled:
        an enabled day becomes the date, a disabled one changes nothing. */
    method ClickDay(cell: Date, now: Instant)
      modifies this
      ensures !PastDisabled(now)(cell) ==> date == Some(cell)
      ensures PastDisabled(now)(cell) ==> date == old(date)
      ensures startTime == old(startTime) && endTime == old(endTime)
      ensures saved == old(saved) && route == old(route)
    {
      var call := RegistrationCalendar.Click(cell, true, Some(PastDisabled(now)));
      if call.Some? {
        date := call;
      }
    }

    method SetStartTime(time: string)
      modifies this`startTime
      ensures startTime == Some(time)
    {
      startTime := Some(time);
    }

    method SetEndTime(time: string)
      modifies this`endTime
      ensures endTime == Some(time)
    {
      endTime := Some(time);
    }

    /** `handleContinue`: with all three choices present it saves them and navigates
        to the details page; otherwise it has no effect. */
    method HandleContinue()
      modifies this`saved, this`route
      ensures CanContinue(date, startTime, endTime) ==>
        saved == Some(SavedBooking(date.value, startTime.value, endTime.value)) && route == Some(DetailsRoute)
      ensures !CanContinue(date, startTime, endTime) ==> saved == old(saved) && route == old(route)
    {
      if CanContinue(date, startTime, endTime) {
        saved := Some(SavedBooking(date.value, startTime.value, endTime.value));
        route := Some(DetailsRoute);
      }
    }
  }
}
