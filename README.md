# El Parlamento café site: calendars, booking, carousel, backend lookups and gallery

This project models the deterministic core of the El Parlamento café website. The
site has a Next.js frontend and a FastAPI backend. The model covers:

- the events month calendar (`calendar.tsx`): a grid of leading blanks and day cells,
  month stepping, and selecting a day. Selecting a day writes the day and that day's
  events into the shared selection store (`store.ts`).
- the event calendar (`event-calendar.tsx`): it rewrites date ranges such as
  "June 1-15, 2025" before parsing them, then lists and highlights the events of a day.
- the booking calendar (`calendar-registration-event.tsx`): its month grid built by a
  `for` loop and a `while` loop, navigation with date-fns `addMonths`/`subMonths`, the
  caller's `disabled` hook, and the flags of each cell.
- the booking page (`book_events/page.tsx`): 48 half-hour time options built by nested
  loops, end times filtered to those after the start, past days disabled, and the
  "continue" guard.
- the testimonial carousel: wrap-around next/previous over the window positions.
- the backend (`main.py`): the event list, lookup by id with a 404 fallback, the
  available-slots default and the booking id format.
- the gallery page: the "All" tab, the per-category tabs, the tile height rule and
  the src fallback.

Modules (one file each):

- `Wrappers`: `Option`.
- `Seqs`: a stable filter.
- `Text`: decimal digits, `padStart`, JavaScript string order.
- `Gregorian`: dates as (full year, month 0..11, day), leap years, day numbers,
  weekdays, JavaScript month normalisation, date-fns `addMonths`.
- `EventRecords`: the event record and day matching.
- `EventStore`, `MonthCalendar`, `EventCalendar`, `RegistrationCalendar`, `BookEvents`,
  `Carousel`, `Backend`, `Gallery`.

The JavaScript date parser (`new Date(text)`) is a parameter `parse: string ->
Option<Instant>`. `None` stands for an Invalid Date, and the clock (`new Date()`,
`datetime.now()`) is a parameter too.

JavaScript semantics that matter are written out:

- `%` truncates toward zero, and a remainder by zero is NaN.
- The empty string is falsy.
- `<` on strings is lexicographic.
- `new Date(y, m, 0)` is the last day of the month before `m`.
- `new Date(y, m, 1)` carries a month outside 0..11 into the year. The year
  argument is taken as given; see "Left out" for years 0..99.

## Model

| member | source | states |
|---|---|---|
| Gregorian.DaysInMonth | frontend_p/components/calendar.tsx:23 | the length of a month, 28..31, with 29 for February exactly in Gregorian leap years |
| Gregorian.Weekday | frontend_p/components/calendar.tsx:26 | `getDay()` of a valid date is in 0..6, 0 = Sunday ("Dom") |
| Gregorian.NextMonthWeekday | frontend_p/components/calendar-registration-event.tsx:69-81 | the first of the next month falls `DaysInMonth` weekdays after the first of this month |
| Gregorian.WeekdayOfNextDay | frontend_p/components/calendar-registration-event.tsx:80 | `addDays(day, 1)` moves to the next weekday |
| Gregorian.NextDay | frontend_p/components/calendar-registration-event.tsx:80 | `addDays(day, 1)` is a valid date whose day number is one more |
| Gregorian.PrevDay | frontend_p/components/calendar.tsx:23 | day 0 of a month is a valid date one day number before the month's first |
| Gregorian.MonthStart | frontend_p/components/calendar.tsx:30 | `new Date(y, m, 1)` is a valid first of a month whose month index is `y * 12 + m`, for any `m` and a year taken literally |
| Gregorian.AddMonths | frontend_p/components/calendar-registration-event.tsx:41-45 | `addMonths(d, k)` is valid and `k` months later, keeps the day or clamps it to the month's last day |
| Gregorian.DaysBeforeNextYear | frontend_p/components/calendar.tsx:23-26 | the day count advances by 366 days after a leap year and 365 otherwise |
| MonthCalendar.DaysInMonthViaDayZero | frontend_p/components/calendar.tsx:23 | `new Date(y, m + 1, 0).getDate()` equals the length of month `m` |
| MonthCalendar.CalendarDays | frontend_p/components/calendar.tsx:89-111 | the grid is `Weekday(first)` blanks (0..6) then one cell per day, day `d` at index blanks + d - 1, highlighted exactly when some event falls on it; length blanks + days, no trailing padding |
| MonthCalendar.February2024 | frontend_p/components/calendar.tsx:23-26 | February 2024 starts on a Thursday (4 blanks) and has 29 days, so its grid has 33 cells |
| MonthCalendar.PrevMonth | frontend_p/components/calendar.tsx:29-31 | previous month: a valid first of a month, one month index earlier |
| MonthCalendar.NextMonth | frontend_p/components/calendar.tsx:34-36 | next month: a valid first of a month, one month index later |
| MonthCalendar.MonthRollover | frontend_p/components/calendar.tsx:29-36 | previous from January is December of the year before, next from December is January of the year after, day 1 |
| MonthCalendar.NextThenPrevMonth | frontend_p/components/calendar.tsx:29-36 | next then previous, and previous then next, return to the first of the same month |
| MonthCalendar.Calendar.constructor | frontend_p/components/calendar.tsx:15 | the calendar opens on today with the given events and store |
| MonthCalendar.Calendar.HandlePrevMonth | frontend_p/components/calendar.tsx:29-31 | the displayed date becomes the first of the previous month |
| MonthCalendar.Calendar.HandleNextMonth | frontend_p/components/calendar.tsx:34-36 | the displayed date becomes the first of the next month |
| MonthCalendar.Calendar.HasEvents | frontend_p/components/calendar.tsx:58-68 | `hasEvents(day)` holds iff the list `handleDateSelect(day)` would store is non-empty |
| MonthCalendar.Calendar.HandleDateSelect | frontend_p/components/calendar.tsx:71-86 | the store gets the day and exactly the stable filter of events on that day, and is left consistent |
| EventRecords.EventsOn | frontend_p/components/calendar.tsx:76-83 | the listed records are records of the list on day `d`, and every record of the list on `d` is listed |
| EventRecords.AnyOnIffEventsOn | frontend_p/components/calendar.tsx:58-68 | `AnyOn` (`events.some(...)` with the `OnDay` test) is true iff `events.filter(...)` is non-empty |
| EventRecords.EventsOnAppend | frontend_p/components/calendar.tsx:76-83 | the listing keeps the original order: filtering a concatenation concatenates the filters |
| EventRecords.OnDayIgnoresTimeOfDay | frontend_p/components/calendar.tsx:60-66 | `OnDay`, the per-record test: matching compares only day, month and full year: two dates on the same calendar day match the same days |
| EventRecords.UnparseableNeverListed | frontend_p/components/calendar.tsx:76-82 | a record whose date does not parse is never listed |
| Seqs.Filter | frontend_p/components/calendar.tsx:76 | `Array.prototype.filter`: no longer than its input, keeps exactly the elements satisfying the predicate |
| Seqs.FilterAppend | frontend_p/app/gallery/page.tsx:245-246 | filtering is stable: the filter of `a + b` is the filter of `a` followed by that of `b` |
| Seqs.FilterNonEmptyIffSome | frontend_p/components/calendar.tsx:60 | the filter is non-empty iff some element satisfies the predicate (`some`) |
| EventStore.Store.constructor | frontend_p/lib/store.ts:11-13 | the store starts with no date and no events |
| EventStore.Store.SetSelectedDate | frontend_p/lib/store.ts:14 | only `selectedDate` changes, to the given date; setting the same date again changes nothing |
| EventStore.Store.SetSelectedEvents | frontend_p/lib/store.ts:15 | only `selectedEvents` changes, to the given list; setting the same list again changes nothing |
| EventCalendar.RewriteDateString | frontend_p/components/event-calendar.tsx:25-26 | a string with "-" becomes the text before its first "-" plus ", 2023"; others are unchanged; the result has no "-" |
| EventCalendar.RewriteIdempotent | frontend_p/components/event-calendar.tsx:25-30 | rewriting twice is rewriting once |
| EventCalendar.RewriteAtFirstDash | frontend_p/components/event-calendar.tsx:24-26 | any text before the first "-" survives followed by ", 2023", so "June 1-15, 2025" reads as "June 1, 2023" |
| EventCalendar.ParseDateRewritesRanges | frontend_p/components/event-calendar.tsx:23-34 | `DateParser` (`parseDate`): a text without "-" is parsed as it is, a range is parsed as its text before the first "-" followed by ", 2023" |
| EventCalendar.UnparseableExcluded | frontend_p/components/event-calendar.tsx:50-52 | an event whose rewritten date does not parse is neither listed nor highlighted |
| EventCalendar.EventCalendar.constructor | frontend_p/components/event-calendar.tsx:37-38 | opens with today selected and no events listed |
| EventCalendar.EventCalendar.HandleSelect | frontend_p/components/event-calendar.tsx:41-63 | records the selection; no day empties the list, a day lists exactly its events in order |
| EventCalendar.EventCalendar.HasEvents | frontend_p/components/event-calendar.tsx:66-77 | `hasEvents(day)` holds iff selecting the day lists some event |
| RegistrationCalendar.GenerateDays | frontend_p/components/calendar-registration-event.tsx:62-84 | `getDay(first)` empty cells, then every date of the month in order, each valid, in the displayed month, and one day after the previous |
| RegistrationCalendar.DisabledOnlyByHook | frontend_p/components/calendar-registration-event.tsx:54-59 | `IsDateDisabled` (`isDateDisabled`): without a `disabled` hook no date is disabled; with one, a date is disabled iff the hook says so |
| RegistrationCalendar.Click | frontend_p/components/calendar-registration-event.tsx:48-52 | a click hands the date to `onSelect` iff `onSelect` exists and the date is not disabled |
| RegistrationCalendar.ViewCell | frontend_p/components/calendar-registration-event.tsx:134-137 | a cell is selected iff it is the selected day, disabled iff the hook says so, current iff in the displayed month, today iff it is today |
| RegistrationCalendar.NextThenPreviousMonth | frontend_p/components/calendar-registration-event.tsx:40-46 | next then previous, and previous then next, show the same month and year |
| RegistrationCalendar.NavigationClampsDay | frontend_p/components/calendar-registration-event.tsx:40-46 | the day of month is not restored: 31 Jan 2024, next gives 29 Feb, previous then gives 29 Jan |
| RegistrationCalendar.CustomCalendar.constructor | frontend_p/components/calendar-registration-event.tsx:37-38 | the calendar opens on today with the given props |
| RegistrationCalendar.CustomCalendar.HandlePreviousMonth | frontend_p/components/calendar-registration-event.tsx:40-42 | the month becomes `subMonths(month, 1)`, a valid date one month earlier |
| RegistrationCalendar.CustomCalendar.HandleNextMonth | frontend_p/components/calendar-registration-event.tsx:44-46 | the month becomes `addMonths(month, 1)`, a valid date one month later |
| Text.TwoDigitPadStart | frontend_p/app/events/book_events/page.tsx:36-37 | `n.toString().padStart(2, "0")` is the two-digit form of any `n` below 100 |
| Text.LessAtFirstDifference | frontend_p/app/events/book_events/page.tsx:128 | JavaScript string `<` is decided by the first differing character |
| BookEvents.SlotChars | frontend_p/app/events/book_events/page.tsx:36-38 | option `k` reads `HH:00` or `HH:30` with `HH` the two digits of `k / 2` |
| BookEvents.SlotOrder | frontend_p/app/events/book_events/page.tsx:128 | every option has five characters, and string order on options is clock order |
| BookEvents.TimeOptions | frontend_p/app/events/book_events/page.tsx:33-41 | the loops build exactly the 48 options "00:00", "00:30", ..., "23:30" in order |
| BookEvents.EndTimesAfterStart | frontend_p/app/events/book_events/page.tsx:115-128 | `EndTimeOptions` and `EndSelectDisabled`: with start option `s` the end-time select is enabled, and the end options are exactly the options after `s`, in order |
| BookEvents.EndTimesWithoutStart | frontend_p/app/events/book_events/page.tsx:115-128 | `EndSelectDisabled` and `EndTimeOptions`: with no start time the end-time select is disabled, although its filter would offer every option |
| BookEvents.ContinueButtonMatchesGuard | frontend_p/app/events/book_events/page.tsx:145 | `ContinueDisabled` against `CanContinue`: the Continue button is disabled iff the `handleContinue` guard refuses |
| BookEvents.GuardIgnoresOrder | frontend_p/app/events/book_events/page.tsx:21 | `CanContinue` (`date && startTime && endTime`) checks presence only: end 09:00 before start 10:00 passes, while a missing date or an empty time string fails |
| BookEvents.TodayDisabledUnlessMidnight | frontend_p/app/events/book_events/page.tsx:72 | `PastDisabled` (`date < new Date()`): earlier days are disabled, later days are not, and today is disabled unless it is exactly midnight |
| BookEvents.DateTimePage.constructor | frontend_p/app/events/book_events/page.tsx:15-17 | no date, start or end time; nothing saved |
| BookEvents.DateTimePage.ClickDay | frontend_p/app/events/book_events/page.tsx:69-72 | an enabled day becomes the date, a disabled one changes nothing; times are untouched |
| BookEvents.DateTimePage.SetStartTime | frontend_p/app/events/book_events/page.tsx:90 | the start time becomes the chosen option |
| BookEvents.DateTimePage.SetEndTime | frontend_p/app/events/book_events/page.tsx:115 | the end time becomes the chosen option |
| BookEvents.DateTimePage.HandleContinue | frontend_p/app/events/book_events/page.tsx:20-30 | with date, start and end present it saves all three and navigates to the details page; otherwise nothing changes |
| Carousel.JsRem | frontend_p/components/testimonial-carousel.tsx:41 | JavaScript `%`: NaN iff the divisor is 0, the usual remainder for a non-negative dividend |
| Carousel.StepsStayInRange | frontend_p/components/testimonial-carousel.tsx:40-46 | with at least `visibleCount` testimonials both steps keep the position in `0..n - v` |
| Carousel.StepsWrap | frontend_p/components/testimonial-carousel.tsx:40-46 | `NextIndex` (`nextSlide`, line 41) and `PrevIndex` (`prevSlide`, line 45): next from the last position gives 0, previous from 0 gives the last; otherwise they move by one |
| Carousel.StepsAreInverse | frontend_p/components/testimonial-carousel.tsx:40-46 | on the valid range next and previous undo each other |
| Carousel.TooFewTestimonials | frontend_p/components/testimonial-carousel.tsx:41-45 | with fewer than `v` testimonials previous from 0 is negative, and with `v - 1` next is NaN |
| Carousel.TestimonialCarousel.constructor | frontend_p/components/testimonial-carousel.tsx:16-20 | starts at position 0 with three visible cards, loading, no error |
| Carousel.TestimonialCarousel.Loaded | frontend_p/components/testimonial-carousel.tsx:27-30 | the fetched list is stored and loading ends |
| Carousel.TestimonialCarousel.Failed | frontend_p/components/testimonial-carousel.tsx:31-34 | the error message is set and loading ends |
| Carousel.TestimonialCarousel.NextSlide | frontend_p/components/testimonial-carousel.tsx:40-42 | the position takes the next step and stays in range when there are enough testimonials |
| Carousel.TestimonialCarousel.PrevSlide | frontend_p/components/testimonial-carousel.tsx:44-46 | the position takes the previous step and stays in range when there are enough testimonials |
| Backend.EventIdsDistinct | backend_p/main.py:262-331 | `GetEvents` (`get_events`) returns six events with distinct ids, so at most one matches an id |
| Backend.GetEvent | backend_p/main.py:334-339 | a found event has the asked id and is the first with it; otherwise the not-found detail with 404, and no event has the id |
| Backend.GetAvailableSlots | backend_p/main.py:47-54 | one entry, for the given date, or for "2024-07-01" when the date is absent or empty |
| Backend.SlotsAreBookingTimes | backend_p/main.py:52 | the five slots are 09:00, 10:00, 11:00, 14:00 and 15:00, all among the booking page's options |
| Backend.FieldsOfBookingId | backend_p/main.py:43 | the id is "booking_" then the year in 4 digits and month, day, hour, minute, second in 2 digits each, 22 characters |
| Backend.BookingIdRoundTrip | backend_p/main.py:43 | a booking id reads back as the moment it was issued |
| Backend.BookEvent | backend_p/main.py:37-44 | always "success", with a 22-character id that starts with "booking_" and encodes the time of the call |
| Gallery.TabImages | frontend_p/app/gallery/page.tsx:245-246 | "all" lists the images as they are; a category tab lists images of that category only, and all of them |
| Gallery.TabOfConcat | frontend_p/app/gallery/page.tsx:245-246 | a tab keeps the original order |
| Gallery.ExactlyOneCategoryTab | frontend_p/app/gallery/page.tsx:242-246 | an image appears on a category tab iff it is the image's own category |
| Gallery.CategoryTabsPartition | frontend_p/app/gallery/page.tsx:242-246 | the four category tabs together have as many images as "all" |
| Gallery.GalleryTab | frontend_p/app/gallery/page.tsx:15-183 | `GalleryImages` (`galleryImages`): on the page's images each category tab lists exactly that category's images in page order |
| Gallery.GalleryTabSizes | frontend_p/app/gallery/page.tsx:15-183 | the tabs list 20, 5, 6, 5 and 4 images |
| Gallery.TileHeight | frontend_p/app/gallery/page.tsx:227 | 400 iff the image is taller than wide, 300 otherwise |
| Gallery.TileSrc | frontend_p/app/gallery/page.tsx:231 | an empty src becomes "/placeholder.svg", any other src is kept; never empty |
| Gallery.TabTiles | frontend_p/app/gallery/page.tsx:245-262 | one tile per listed image, in order, with its id, rendered src and tile height |
| Gallery.GalleryTiles | frontend_p/app/gallery/page.tsx:15-183 | no page image falls back to the placeholder; the square s4 gets 300px; exactly s2, e3, f2 and p3 get 400px |

## Left out

- The event `description` text and the gallery `alt` text are not carried in the
  records, because no operation of the core reads them.
- Rendering, CSS classes, animations, icons and the month and weekday names are not
  modelled. Nor is the carousel's `translateX` percentage, which is floating-point
  display math.
- `new Date(text)` is an abstract parser parameter. Time zones, `toISOString` and
  date-fns `format` are not modelled. A parsed date is a calendar day plus
  milliseconds into that day.
- `parseDate` in `event-calendar.tsx` never returns `null`, because `new Date` does not
  throw. An Invalid Date is truthy, so its `!eventDate` guard does not fire. The
  model's `None` covers that case: NaN getters never compare equal, so the event
  matches no day either way.
- MonthCalendar.Calendar.HasEvents and MonthCalendar.Calendar.HandleDateSelect take the
  day as given. JavaScript would roll a day outside the month into a neighbouring
  month, but the grid only ever passes 1..days-in-month.
- MonthCalendar.Calendar keeps only the calendar day of `currentDate`. Its time of day
  is never read by the grid.
- RegistrationCalendar.CustomCalendar keeps only the calendar day of `currentMonth`.
  date-fns `addMonths` carries its time of day along, but nothing in the grid reads it.
- Gregorian.MonthStart takes the year argument literally. JavaScript's `new Date(y, m, d)`
  reads a year from 0 to 99 as 1900 + y, so for those years the model differs from
  the source. The difference reaches MonthCalendar.DaysInMonthViaDayZero,
  MonthCalendar.CalendarDays, MonthCalendar.PrevMonth, MonthCalendar.NextMonth,
  MonthCalendar.Calendar.HandlePrevMonth, MonthCalendar.Calendar.HandleNextMonth,
  MonthCalendar.Calendar.HasEvents and MonthCalendar.Calendar.HandleDateSelect. For
  example, previous from December of year 99 gives 1 November 1999 in JavaScript and
  1 November 99 in the model.
- RegistrationCalendar.GenerateDays: `endOfMonth` is modelled as the last millisecond of
  the month's last day. The loop compares a midnight with it via `isBefore`/`isSameDay`.
- The fetch of testimonials and events, `localStorage` and `router.push` are not
  modelled. The booking page records what it would save and where it would navigate,
  as fields.
- Backend.GetEvent returns the not-found pair `({"detail": ...}, 404)` as written. How
  FastAPI serialises a returned tuple is framework behaviour and is not modelled.
- Backend.BookEvent: `strftime("%Y")` is modelled as four zero-padded digits for years
  1..9999. Padding below year 1000 depends on the platform and is not modelled.
- Backend wiring, CORS and static mounts are not modelled. The menu, team and
  testimonial data served by the backend are not modelled either.
- Forms and validation on other pages are not modelled.
