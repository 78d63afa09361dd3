# Cinema site: programme, sessions and normalisers in Dafny

This project models the logic behind the pages of a cinema and events
ticketing site built with Next.js. The site's logic lives in two kinds of
code: adapters that reshape the upstream API's loosely typed JSON into view
records, and client components that hold a little selection state.

The model covers:

- **The by-date programme** (`CinemaApi`). Entries of any shape are
  classified, and events are registered in a map keyed by id, first snapshot
  winning. Sessions dated another day are dropped. Each event's sessions are
  sorted by time, events left without a session are removed, and the events
  are ordered by first session, then title. The map-filling part is a class,
  `ProgrammeBuilder`, whose methods are proved against pure functions.
- **The session selector** (`SessionSelector`). Sessions that are past or
  cannot be read are dropped and the rest grouped by day. The state holds
  the active day and the stored session id. The day and session on show are
  derived from that state.
- **A small Gregorian calendar** (`Calendar`). It provides month lengths,
  day stepping and the weekday, and models `new Date(y, m, d)`, including
  its roll-over and its 19xx rule for years 0 to 99. It also covers the
  strict `YYYY-MM-DD` parser and the zero-padded formatter.
- **The pages built on the calendar.** `ProgrammePage` models the ten-day
  window and the clamp of the requested day. `CalendarButton` models the
  month grid starting on Monday.
- **The JSON normalisers** of the event page (`EventApi`), the catalogue
  (`EventsApi`) and the home page (`HomeApi`). The two running-time label
  variants and the meta line they share are in `Labels`, and `toMinutes` is
  in `Times`.
- **The trailer helpers** (`Trailer`). `TrailerModalButton.js` and
  `EventTrailer.js` define the same helpers, so one definition serves both.
  The model covers the start-time parser, the YouTube id and start, the
  video-file test, the choice of player and the open/play guards.
- **Small UI logic**: the genre filter (`GenreFilter`, with query strings in
  `UrlQuery`), the header's active link (`SiteHeader`) and the hero carousel
  (`HeroSection`, a class with an index field).

JavaScript values are the datatype `Json.Value`, covering `undefined`,
`null`, booleans, integers, strings, arrays and objects. On that datatype
the model defines truthiness, `||`, `??`, `?.`, `Number(...)`,
`String(...)` and `join`. `Array.prototype.sort` is a stable insertion sort
(`Sequences.SortBy`); with a consistent comparator every stable sort returns
the same list. A request's outcome is the parameter `Fetch`: either a parsed
body or a failure. Several things are also parameters:

- the French collation `localeCompare(..., "fr", { sensitivity: "base" })`;
- the `Intl` labels;
- the URL parser and the form encoding;
- the current instant.

Three behaviours of the code that a reader might not expect, which the model follows:

- an event page session's `availableSeats` passes negative numbers through
  unclamped;
- `parseLocalDate` in the session selector does no range check, so
  "2024-02-30" is 1 March 2024;
- the home page's running-time label prints "2h 00m" where the other pages
  print "2h".

## Model

| member | source | states |
|---|---|---|
| Labels.ReadDurationLabel | app/lib/cinema-api.js:11-19 | The label of every non-negative running time reads back as that time: "{n}m" under an hour, "{h}h" on the hour, "{h}h {mm}m" otherwise. |
| Labels.ReadMinutesOnly | app/lib/cinema-api.js:16 | "{n}m" reads back as n. |
| Labels.ReadWholeHours | app/lib/cinema-api.js:17 | "{h}h" reads back as 60·h. |
| Labels.ReadHoursAndMinutes | app/lib/cinema-api.js:18 | "{h}h {mm}m" with two-digit minutes reads back as 60·h + m. |
| Labels.TwoHours | app/lib/events-api.js:13-21 | 120 minutes is "2h" for the programme and catalogue and "2h 00m" for the home page. |
| Labels.ReadHomeDurationLabel | app/lib/home-api.js:26-33 | The home page's label of every non-negative running time reads back as that time. |
| Labels.DurationVariants | app/lib/home-api.js:26-33 | The two label variants agree exactly except on whole hours of at least one hour. |
| Labels.BuildMetaLine | app/lib/events-api.js:23-26 | Truthy iff a part is truthy; with both parts it starts with "genre • " and ends with the duration; otherwise it is the truthy part or "". |
| Times.ToMinutesDigits | app/lib/cinema-api.js:62-67 | Digit strings around one ":" give 60·hours + minutes. |
| Times.ToMinutesFormatClock | app/lib/cinema-api.js:62-67 | Reading a zero-padded "HH:MM" gives back its minutes. |
| Times.ToMinutesNoColon | app/lib/cinema-api.js:64-65 | Without ":" the minutes part is missing and the result is 0. |
| Times.ToMinutesBadHours | app/lib/cinema-api.js:62-67 | An hours part before the first ":" holding a character that is neither a digit, a sign nor white space gives 0, whatever follows. |
| Json.Or | app/lib/cinema-api.js:32 | `a \|\| b` is truthy iff one of them is. |
| Json.Coalesce | app/components/HeroSection.js:121 | `a ?? b` is nullish only when b is. |
| Json.NumberOfString | app/lib/cinema-api.js:12 | A trimmed string of digits reads as a non-negative number; only a leading "-" reads as a negative one. |
| Json.NumberOfTrimmed | app/lib/cinema-api.js:12 | A string of digits reads as its decimal value; a negative value needs a leading "-". |
| Json.NumberOfDigits | app/lib/cinema-api.js:64 | `Number` of a digit string is its decimal value. |
| Json.NumberOfIntToString | app/lib/cinema-api.js:12 | `Number(String(n))` is n for every integer. |
| Json.NumberOfNegative | app/lib/cinema-api.js:12 | The same for negative integers. |
| Json.NumberOfSigned | app/lib/cinema-api.js:12 | "-" followed by digits reads as the negated value. |
| CinemaApi.NormalizeEvent | app/lib/cinema-api.js:21-44 | A record exists iff the event is truthy and `_id \|\| id` is truthy; it keeps that id and has no sessions yet; the badge is "Spectacle" iff `type` is "show", else "Film"; title and poster are never empty. |
| CinemaApi.GenresLabel | app/lib/cinema-api.js:25-28 | The genre label is "Cinéma" with no genres, else the first one or two genres joined by " / ". |
| CinemaApi.NormalizeSession | app/lib/cinema-api.js:46-60 | A record exists iff the session and one of sessionTime/time/startTime/hour are truthy; isPremium iff the label matches imax/4dx/dolby/atmos in any case; without `_id`/`id` the id is "{time}-{label}". |
| CinemaApi.Register | app/lib/cinema-api.js:80-87 | No key iff the event does not normalise, else its id; a known id leaves the map as it was; a new id is stored with the normalised event and no sessions and appended to the order; the failure flag is untouched; each id stays once. |
| CinemaApi.RegisterIdempotent | app/lib/cinema-api.js:80-87 | Registering the same event twice is registering it once. |
| CinemaApi.RegisterFirstWins | app/lib/cinema-api.js:83-86 | A known id returns the existing record unchanged, sessions included. |
| CinemaApi.RegisterGrowth | app/lib/cinema-api.js:80-87 | The map grows by at most one; an event that does not normalise changes nothing and returns null; existing records are unchanged. |
| CinemaApi.CheckDate | app/lib/cinema-api.js:71-73 | A session passes without a date key or date; a string date passes iff it is empty or its first 10 characters are the key; any other truthy non-array date throws on `slice`. |
| CinemaApi.AddSession | app/lib/cinema-api.js:69-78 | The map's ids and order are unchanged; a date without `slice` sets the failure flag and nothing else does; a session that passes the date test and normalises is appended to its event's sessions, the other events unchanged. |
| CinemaApi.AddSessionAppends | app/lib/cinema-api.js:75-77 | Other events are untouched; the target gains nothing or exactly its normalised session at the end. |
| CinemaApi.AddSessionDates | app/lib/cinema-api.js:71-77 | A session dated another day, or with an array date, is never added; a session dated the key's day, or dateless, that normalises is appended; a truthy date that is neither string nor array throws. |
| CinemaApi.AddSessions | app/lib/cinema-api.js:98 | The sessions of a group go to its event; ids and order are unchanged; after an exception nothing changes. |
| CinemaApi.AddSessionsStep | app/lib/cinema-api.js:98 | One more session of the list is one more `addSessionToEvent`, unless an exception was already thrown. |
| CinemaApi.AddSessionsStopped | app/lib/cinema-api.js:98 | Once an exception is thrown the remaining sessions are not looked at. |
| CinemaApi.Consume | app/lib/cinema-api.js:89-111 | Consuming an entry keeps the map well formed and loses no event. |
| CinemaApi.SessionEntryAdds | app/lib/cinema-api.js:101-105 | A bare session registers its referenced event, which then holds its earlier sessions (none if new) plus this one when it passes the date test and normalises; a date without `slice` throws. |
| CinemaApi.SessionEntryWithoutEvent | app/lib/cinema-api.js:101-105 | A bare session whose reference does not normalise changes nothing. |
| CinemaApi.BareEventIgnored | app/lib/cinema-api.js:89-111 | An entry with no session list, no session time and no event reference registers nothing. |
| CinemaApi.GroupRegistersItself | app/lib/cinema-api.js:95-96 | A group without an event reference registers the entry itself. |
| CinemaApi.ConsumeAll | app/lib/cinema-api.js:139 | A list of entries keeps the map well formed; after an exception nothing changes. |
| CinemaApi.ConsumeAllStopped | app/lib/cinema-api.js:139 | Entries after the one that threw are not looked at. |
| CinemaApi.Feed | app/lib/cinema-api.js:138-140 | Feeding a section keeps the map well formed. |
| CinemaApi.Collect | app/lib/cinema-api.js:136-156 | The map built from all five sections is well formed. |
| CinemaApi.SessionLePreorder | app/lib/cinema-api.js:161-163 | The session comparator is a total preorder. |
| CinemaApi.EventLePreorder | app/lib/cinema-api.js:166-171 | With a total-preorder collation the event comparator is one too. |
| CinemaApi.Records | app/lib/cinema-api.js:158-164 | One record per registered event, in map order. |
| CinemaApi.NonEmpty | app/lib/cinema-api.js:165 | Every event kept has a session. |
| CinemaApi.BuildOrdered | app/lib/cinema-api.js:158-171 | Every event of the result has a session, its sessions are in time order, and the events are in comparator order. |
| CinemaApi.BuildEventsSorted | app/lib/cinema-api.js:166-171 | The events are sorted by first-session minutes, then title. |
| CinemaApi.BuildSessionsSorted | app/lib/cinema-api.js:159-165 | Each event kept has at least one session, in non-decreasing minutes. |
| CinemaApi.RecordSorted | app/lib/cinema-api.js:161-163 | Each record's sessions are sorted by minutes. |
| CinemaApi.BuildMembers | app/lib/cinema-api.js:158-171 | The result is a permutation of the registered events that kept a session, each once. |
| CinemaApi.BuildMember | app/lib/cinema-api.js:158-165 | An event is in the result iff it is a registered record with a session. |
| CinemaApi.RecordsKeepSessions | app/lib/cinema-api.js:161-163 | Sorting an event's sessions loses and adds none. |
| CinemaApi.SessionsByDate | app/lib/cinema-api.js:113-180 | An empty key gives {date: "", events: []}; otherwise the date is the key, and a failed request gives no events; a throw while collecting (a date without `slice`) or while sorting (a non-string time, or a non-string title tied on minutes, `SortThrows`) also gives no events. |
| CinemaApi.SessionsByDateContents | app/lib/cinema-api.js:137-172 | Without a throw, the events returned are exactly the collected events that kept a session, each once, with their sessions reordered but none lost. |
| CinemaApi.TitleTie | app/lib/cinema-api.js:166-171 | Two events tied on minutes make the event sort throw iff one title is not a string; a number as title always does. |
| CinemaApi.SessionsByDateOrdered | app/lib/cinema-api.js:113-180 | Whatever the payload, every event returned has a session, sessions are in time order and events in comparator order. |
| CinemaApi.ProgrammeBuilder.constructor | app/lib/cinema-api.js:136 | A new map is empty. |
| CinemaApi.ProgrammeBuilder.RegisterEvent | app/lib/cinema-api.js:80-87 | Updates the map in place as `Register` says and returns its key. |
| CinemaApi.ProgrammeBuilder.AddSessionToEvent | app/lib/cinema-api.js:69-78 | Pushes onto the event's sessions in place as `AddSession` says. |
| CinemaApi.ProgrammeBuilder.AddSessionsToEvent | app/lib/cinema-api.js:97-98 | The `forEach` over a group's sessions, proved equal to `AddSessions`. |
| CinemaApi.ProgrammeBuilder.ConsumeEntry | app/lib/cinema-api.js:89-111 | Classifies one entry and updates the map as `Consume` says. |
| CinemaApi.ProgrammeBuilder.ConsumeEntries | app/lib/cinema-api.js:139 | The `forEach` over a section, proved equal to `ConsumeAll`. |
| CinemaApi.ProgrammeBuilder.FeedList | app/lib/cinema-api.js:138-140 | A section that is an array is consumed, anything else ignored. |
| CinemaApi.GetSessionsByDate | app/lib/cinema-api.js:113-180 | Builds the map with a `ProgrammeBuilder` and returns exactly `SessionsByDate`. |
| SessionSelector.ParseLocalDate | app/components/SessionSelector.js:18-23 | An empty key gives null. |
| SessionSelector.ParseParts | app/components/SessionSelector.js:20-21 | Fewer than three parts give null. |
| SessionSelector.ParseNumbers | app/components/SessionSelector.js:21-22 | A date exists iff year, month and day are all numbers other than 0, and it is `new Date(year, month - 1, day)`. |
| SessionSelector.ParseLocalDateDigits | app/components/SessionSelector.js:18-22 | Three digit strings around two dashes are read as their numbers. |
| SessionSelector.ParseLocalDateKey | app/components/SessionSelector.js:11-23 | The key of a date with a four-digit year parses back to that date. |
| SessionSelector.ParseLocalDateParts | app/components/SessionSelector.js:18-22 | The year, padded month and padded day of a date parse back to it. |
| SessionSelector.ParseNumbersOfDate | app/components/SessionSelector.js:21-22 | A valid date from year 1000 on is rebuilt unchanged. |
| SessionSelector.ParseLocalDateOverflow | app/components/SessionSelector.js:18-23 | No range check: "2024-02-30" is 1 March 2024. |
| SessionSelector.FebruaryOverflow | app/components/SessionSelector.js:22 | `new Date(2024, 1, 30)` is 1 March 2024. |
| SessionSelector.ClockMinutes | app/components/SessionSelector.js:62-63 | A time is read only from a non-empty label. |
| SessionSelector.ToMinutesClock | app/components/SessionSelector.js:52-63 | The sort key `toMinutes` is the clock reading of `getSessionDateTime`, or 0 where that fails. |
| SessionSelector.SessionDateTime | app/components/SessionSelector.js:59-66 | An instant exists iff the day and the time parse; it is local midnight of the day plus the minutes. |
| SessionSelector.SessionDateTimeMonotone | app/components/SessionSelector.js:59-66 | On one day a later clock time is a later instant, and only then. |
| SessionSelector.SessionDateTimeDays | app/components/SessionSelector.js:59-66 | A session on an earlier day is earlier, whatever the clock times. |
| SessionSelector.KeptKey | app/components/SessionSelector.js:72-78 | A kept session's day is the text before "T" of its date. |
| SessionSelector.KeptKeySpec | app/components/SessionSelector.js:72-78 | A session is kept iff it has a date, a non-empty day before "T", a readable day and time, and does not start before now; a session starting exactly now is kept. |
| SessionSelector.StrLePreorder | app/components/SessionSelector.js:86 | The default string order of `sort()` is a total preorder. |
| SessionSelector.DateKeysSpec | app/components/SessionSelector.js:84-87 | The days are strictly increasing, without duplicates, and are exactly the buckets' days. |
| SessionSelector.BucketPlacement | app/components/SessionSelector.js:79-81 | Each kept session is in its own day's bucket and no other; a day has a bucket iff a session was kept for it. |
| SessionSelector.GroupSessionsByDate | app/components/SessionSelector.js:68-88 | The `forEach` filling the map, with its loop invariants, returns exactly the buckets and the sorted days. |
| SessionSelector.DefaultDateKey | app/components/SessionSelector.js:97-98 | The default day is today if it has sessions, otherwise a day with sessions, otherwise "". |
| SessionSelector.DefaultIsEarliest | app/components/SessionSelector.js:97-98 | Without today among the days, the default is the earliest day. |
| SessionSelector.SafeActiveDateKey | app/components/SessionSelector.js:101-103 | The day on show is the stored day when it has sessions, otherwise the default; it has sessions whenever any day does. |
| SessionSelector.SessionLePreorder | app/components/SessionSelector.js:109 | The minutes comparator is a total preorder. |
| SessionSelector.SessionsForDate | app/components/SessionSelector.js:105-110 | The sessions of the day on show are a permutation of its bucket, sorted by minutes, with sessions of the same minute in input order; nothing for a day without a bucket. |
| SessionSelector.FallbackSessionId | app/components/SessionSelector.js:112-115 | The fallback is the first session with seats, else the first session, else null. |
| SessionSelector.ResolvedSessionId | app/components/SessionSelector.js:116-120 | The resolved id is the stored id while it names a session of the list, else the fallback. |
| SessionSelector.SelectedSession | app/components/SessionSelector.js:121-122 | The selected session is a member of the list with that id, or null when none has it. |
| SessionSelector.SelectionInList | app/components/SessionSelector.js:112-122 | The selection is null or a session of the list; it is non-null when the list is non-empty; a matching stored id is kept. |
| SessionSelector.SelectionFallback | app/components/SessionSelector.js:112-120 | Without a matching stored id, the first session with seats is selected, else the first session. |
| SessionSelector.ScheduleDays | app/components/SessionSelector.js:127-136 | One button per day, in order; a button is active iff it is the day on show, and labelled "Auj." iff it is today. |
| SessionSelector.ExactlyOneActive | app/components/SessionSelector.js:127-136 | With at least one day, exactly one day button is active. |
| SessionSelector.Selector.constructor | app/components/SessionSelector.js:91-100 | Mounting groups the sessions, activates the default day and stores no session. |
| SessionSelector.Selector.ChangeDate | app/components/SessionSelector.js:138-141 | A day change sets the day and always clears the stored session. |
| SessionSelector.Selector.ClickSession | app/components/SessionSelector.js:189-201 | A sold-out button is disabled and changes nothing; otherwise the clicked session becomes the selection. |
| Calendar.DaysInMonth | app/programme/page.js:36-43 | Months have 28 to 31 days; February has 29 exactly in leap years. |
| Calendar.NextDay | app/programme/page.js:56-57 | The next day of a valid date is valid. |
| Calendar.AddDays | app/programme/page.js:56-57 | Stepping any number of days gives a valid date. |
| Calendar.DayOfWeek | app/components/CinemaCalendarButton.js:45 | `getDay()` is between 0 and 6. |
| Calendar.DayNumberNext | app/programme/page.js:56-57 | The next day is one day number later. |
| Calendar.NextPrev | app/programme/page.js:56-57 | The day after the day before is the same day. |
| Calendar.AddDaysDayNumber | app/programme/page.js:56-57 | Adding n days moves the day number by exactly n. |
| Calendar.DayNumberOrder | app/programme/page.js:78 | Day numbers order dates as the calendar does. |
| Calendar.DayNumberInjective | app/programme/page.js:56-58 | Distinct valid dates have distinct day numbers. |
| Calendar.AddDaysAdditive | app/programme/page.js:56-57 | Adding m then n days adds m + n. |
| Calendar.AddDaysYearBound | app/programme/page.js:56-57 | Stepping forward never goes back a year. |
| Calendar.AddDaysWithinMonth | app/components/CinemaCalendarButton.js:52-53 | Moving inside a month changes only the day. |
| Calendar.NewDate | app/programme/page.js:36 | `new Date(y, m, d)` always names a valid date (roll-over into months and years, 19xx for years 0 to 99). |
| Calendar.NewDateInRange | app/programme/page.js:36-43 | A valid date outside years 0 to 99 is built as given. |
| Calendar.NewDateExact | app/programme/page.js:33-43 | Two-digit month and day survive `new Date` iff they name an existing day of a year from 100 on. |
| Calendar.LastDayOfMonth | app/components/CinemaCalendarButton.js:44 | Day 0 of the next month is the month's last day. |
| Calendar.DayBeforeFirst | app/components/CinemaCalendarButton.js:44 | The day before the next month's first is this month's last. |
| Calendar.DayNumberOfFirst | app/components/CinemaCalendarButton.js:44 | The first of the next month is one day after this month's last. |
| Calendar.SetDate | app/programme/page.js:57 | `setDate` gives a valid date. |
| Calendar.SetDateOffset | app/programme/page.js:56-57 | `setDate(getDate() + k)` is the date k days later. |
| Calendar.ParseDateKeySpec | app/programme/page.js:29-45 | A value parses iff it is a string of the `^\d{4}-\d{2}-\d{2}$` shape naming an existing day of a year from 100 on, and it parses to that day. |
| Calendar.ParseFormatDateKey | app/programme/page.js:22-45 | A formatted date with a four-digit year has the key shape and parses back to itself. |
| Calendar.FormatParseDateKey | app/programme/page.js:22-45 | An accepted key with a year from 1000 on formats back to the same text. |
| Calendar.FormatDateKeyInjective | app/programme/page.js:22-27 | Different dates never share a key. |
| Calendar.DateKeyOrder | app/programme/page.js:78 | For four-digit years, `<` on keys is the calendar order. |
| Calendar.MonthDayOrder | app/programme/page.js:78 | `<` on the "MM-DD" tails orders by month, then day. |
| Calendar.EpochThursday | app/components/CinemaCalendarButton.js:45 | 1970-01-01 was a Thursday, as `getDay()` says. |
| ProgrammePage.OptionDate | app/programme/page.js:56-57 | Option i's date is i days after the start, across month and year ends. |
| ProgrammePage.OptionAt | app/programme/page.js:58-65 | An option's value is its date's key; it is active iff the value is the selected key. |
| ProgrammePage.DateOptions | app/programme/page.js:53-68 | Exactly ten options, option i for day i of the window. |
| ProgrammePage.BuildDateOptions | app/programme/page.js:53-68 | The counted loop that pushes one option per day returns exactly `DateOptions`. |
| ProgrammePage.DateOptionsLabels | app/programme/page.js:61-63 | "AUJ", then "DEM", then weekday labels; each day and month label is that of the option's date. |
| ProgrammePage.OptionFields | app/programme/page.js:58-64 | Option i's value is the key of start + i, and it is active iff that key is the selected one. |
| ProgrammePage.FirstOptionIsStart | app/programme/page.js:55-58 | The first value is the start day's key. |
| ProgrammePage.DateOptionsConsecutive | app/programme/page.js:55-58 | Each value is the key of the day after the one before. |
| ProgrammePage.WindowKeyParses | app/programme/page.js:58 | With four-digit years each value parses back to its day. |
| ProgrammePage.WindowNextDay | app/programme/page.js:56-57 | Day i + 1 of the window is the day after day i. |
| ProgrammePage.WindowKeysDistinct | app/programme/page.js:58 | Two days of the window with one key are the same day. |
| ProgrammePage.ActiveOptionUnique | app/programme/page.js:64 | Two active options are the same option. |
| ProgrammePage.AtMostOneActive | app/programme/page.js:64 | At most one option of the window is active. |
| ProgrammePage.ParseDateKeyValid | app/programme/page.js:29-45 | An accepted key names a valid date with a year from 100 to 9999. |
| ProgrammePage.SelectedDateKey | app/programme/page.js:74-77 | The key of the requested day, or today's key when the parameter does not parse. |
| ProgrammePage.ActiveDateKeyAsWritten | app/programme/page.js:78 | The text comparison as written: the result never sorts before today's key and is today's or the selected key. |
| ProgrammePage.ActiveDateKey | app/programme/page.js:72-78 | A missing, invalid or past requested day falls back to today; a day from today on is kept. |
| ProgrammePage.ActiveDateKeyNotPast | app/programme/page.js:72-78 | The active day is today or a valid requested day not before today. |
| ProgrammePage.ActiveDateKeyAgrees | app/programme/page.js:78 | With four-digit years the clamp as written and as intended agree. |
| ProgrammePage.ClampKeepsYear500 | app/programme/page.js:72-78 | On 2026-10-15, "0500-01-01" is accepted but kept by the clamp as written, while the intended clamp gives today. |
| CalendarButton.MonthOffset | app/components/CinemaCalendarButton.js:43-45 | The number of empty leading cells is between 0 and 6. |
| CalendarButton.MonthLength | app/components/CinemaCalendarButton.js:44 | A month has 1 to 31 days. |
| CalendarButton.DayCell | app/components/CinemaCalendarButton.js:53-60 | A cell is selected iff its key is the selected key, and disabled iff there is a today key and its key sorts before it. |
| CalendarButton.Grid | app/components/CinemaCalendarButton.js:46-62 | The grid has offset + days-in-month cells. |
| CalendarButton.GridDay | app/components/CinemaCalendarButton.js:52-62 | Day d sits right after the offset empty cells, at position offset + d − 1. |
| CalendarButton.CalendarDays | app/components/CinemaCalendarButton.js:40-64 | The grid's length is the month's offset plus its length. |
| CalendarButton.CalendarDaysDay | app/components/CinemaCalendarButton.js:52-62 | The day cells are days 1 to daysInMonth in order, right after the empty cells. |
| CalendarButton.BuildCalendarDays | app/components/CinemaCalendarButton.js:40-64 | Computes the first and the length of the month, then the cells, and returns exactly `CalendarDays`. |
| CalendarButton.PushCells | app/components/CinemaCalendarButton.js:46-62 | The two push loops build exactly `Grid`. |
| CalendarButton.GridIsMonth | app/components/CinemaCalendarButton.js:40-62 | The grid has the month's real length, starts on the Monday-based weekday of the 1st, and day d carries that date's key. |
| CalendarButton.MonthLengthIsDays | app/components/CinemaCalendarButton.js:44 | `new Date(y, m + 1, 0).getDate()` is the month's length. |
| CalendarButton.MonthOffsetIsWeekday | app/components/CinemaCalendarButton.js:43-45 | The offset is the Monday-based weekday of the 1st. |
| CalendarButton.AtMostOneSelected | app/components/CinemaCalendarButton.js:58 | Two selected days of a month are the same day. |
| CalendarButton.DisabledBeforeToday | app/components/CinemaCalendarButton.js:59 | Without a today key nothing is disabled; with today's key, exactly the days before today are. |
| CalendarButton.ActiveDate | app/components/CinemaCalendarButton.js:70-71 | The month shown is the selected date's, else today's key's, else the current date's. |
| CalendarButton.ParseDateKeyValid | app/components/CinemaCalendarButton.js:16-32 | An accepted key names a valid date from year 100 on. |
| CalendarButton.SelectedKey | app/components/CinemaCalendarButton.js:72 | The selected key is the selected date when truthy, else the shown date's key. |
| CalendarButton.SelectedKeyIsDateKey | app/components/CinemaCalendarButton.js:72 | A valid selected date with a four-digit year is its own day's key. |
| CalendarButton.OwnCellSelected | app/components/CinemaCalendarButton.js:52-58 | In the grid of a date's month, the date's own cell is the selected one. |
| CalendarButton.SelectedDayShown | app/components/CinemaCalendarButton.js:70-76 | A valid selected day with a four-digit year is shown: its month is the grid and its cell is selected. |
| EventApi.ItemsOrEmpty | app/lib/event-api.js:18 | An array as given, anything else []. |
| EventApi.FiniteNumber | app/lib/event-api.js:19 | A number is kept, anything else is null. |
| EventApi.NormalizeEvent | app/lib/event-api.js:11-26 | A record exists iff the event and its `_id` are truthy; name "Événement" and the fallback poster by default; genres and cast [] unless arrays; duration only for a number. |
| EventApi.NormalizeSession | app/lib/event-api.js:30-37 | Fields as sent; seats are the number given, negative ones included, else 0. |
| EventApi.NormalizeSessions | app/lib/event-api.js:28-39 | [] for a non-array; otherwise record i is element i normalised, one per element; a null element throws. |
| EventApi.SessionsInOrder | app/lib/event-api.js:28-39 | Record i is element i normalised: id, date, time and version as sent, seats the number or 0; nothing filtered or reordered. |
| EventApi.EventSessionsOf | app/lib/event-api.js:41-73 | No request and the empty result for a falsy id; a failed request, a nullish payload or an unreadable session list gives the empty result. |
| EventApi.EventSessionsReceived | app/lib/event-api.js:62-66 | A readable payload gives its event and its sessions normalised, record i from session i. |
| EventApi.NullSessionGivesEmpty | app/lib/event-api.js:28-39 | A null or undefined session makes `session._id` throw, so the result is empty. |
| EventApi.NormalizeEventIdempotent | app/lib/event-api.js:11-26 | Normalising a normalised event gives it back. |
| EventApi.NormalizeSessionIdempotent | app/lib/event-api.js:30-37 | Normalising a normalised session gives it back. |
| EventApi.NormalizeSessionsIdempotent | app/lib/event-api.js:28-39 | Normalising normalised sessions gives them back. |
| EventsApi.GenreLabel | app/lib/events-api.js:30 | The first genre of a non-empty array, else "". |
| EventsApi.NormalizeEvent | app/lib/events-api.js:28-46 | A card exists iff the event and its `_id` are truthy; the alt text names the event when it has a name; the meta line is built from genre and duration. |
| EventsApi.CardAgreesWithDetails | app/lib/events-api.js:28-46 | The catalogue card and the event page's record accept the same events and agree on shared fields. |
| EventsApi.IdAloneRefused | app/lib/events-api.js:29 | An `id` without `_id` is refused here, though the programme accepts it. |
| EventsApi.MetaLine | app/lib/events-api.js:23-41 | "g • d" with both parts, otherwise the part there is, otherwise "". |
| EventsApi.EntryList | app/lib/events-api.js:49 | An array as is, a single truthy entry as a list of one, else []. |
| EventsApi.AfficheOf | app/lib/events-api.js:51-75 | An entry is dropped iff it has no normalisable event and no poster/title/subtitle/eventAffiche; a poster always exists; eventAffiche is a boolean. |
| EventsApi.PosterPrecedence | app/lib/events-api.js:63-64 | The poster is the entry's, then the event data's, then the normalised image, then the fallback. |
| EventsApi.EventIdPrecedence | app/lib/events-api.js:59-62 | The event id is the normalised id, then a string eventId, then nothing. |
| EventsApi.NormalizeALaffiche | app/lib/events-api.js:48-77 | A falsy value gives []; every entry kept has a poster; at most one per input. |
| EventsApi.ALafficheOrder | app/lib/events-api.js:50-76 | Order is kept: the entries of a split list are those of its halves; every entry with an event or content is kept. |
| EventsApi.ALaffiche | app/lib/events-api.js:49 | A single entry reads as a list of one. |
| EventsApi.EventsOf | app/lib/events-api.js:113-119 | [] for a non-array; a card appears iff some event of the array normalises to it; at most one card per event. |
| EventsApi.EventsOfOrder | app/lib/events-api.js:113-119 | Cards keep the events' order: those of a split list are the first half's, then the second's. |
| EventsApi.ShowType | app/lib/events-api.js:121 | `entry?.name \|\| entry`, kept iff truthy. |
| EventsApi.ShowTypes | app/lib/events-api.js:120-122 | [] for a non-array; no falsy entries; a value appears iff it is some entry's `name \|\| entry`; every truthy name and every non-empty string entry appears. |
| EventsApi.ShowTypesOrder | app/lib/events-api.js:120-122 | Show types keep the entries' order; a single entry gives its `name \|\| entry` when truthy, else nothing. |
| EventsApi.ListingOf | app/lib/events-api.js:111-128 | A failure gives four empty lists; a readable payload gives its events, show types and coming events through `EventsOf` and `ShowTypes`; show types are truthy and posters present. |
| EventsApi.ListingContents | app/lib/events-api.js:111-123 | The events and coming events are exactly the entries that normalise, and the show types exactly the truthy names, each list empty unless its field is an array. |
| EventsApi.ALafficheDefault | app/lib/events-api.js:116 | The `\|\| []` default changes nothing. |
| HomeApi.FirstGenre | app/lib/home-api.js:86 | The first genre of a non-empty array, else the default. |
| HomeApi.VersionsLabel | app/lib/home-api.js:55-58 | "" unless a non-empty array; one version prints as itself; two or more print as the first, " • ", then the label of the rest. |
| Json.JoinValuesFront | app/lib/home-api.js:57 | `join` prints the first element, the separator, then the remaining elements joined. |
| HomeApi.MapItems | app/lib/home-api.js:85 | `map` gives one result per item in order, and fails exactly when an item is null or undefined (its field access throws). |
| HomeApi.OrderLePreorder | app/lib/home-api.js:63 | The slide comparator is a total preorder. |
| HomeApi.ActiveSlides | app/lib/home-api.js:61-63 | The slides kept are exactly the active ones. |
| HomeApi.ToHeroSlide | app/lib/home-api.js:64-74 | A slide keeps its id and eventId and has a title, subtitle, image and alt text. |
| HomeApi.HeroSlides | app/lib/home-api.js:60-79 | Never empty; one slide per active slide, in sorted order. |
| HomeApi.HeroFallback | app/lib/home-api.js:76-78 | The fallback slide alone is returned iff no slide is active. |
| HomeApi.HeroOrder | app/lib/home-api.js:61-63 | The kept slides are the active ones sorted by `order`, ties in input order. |
| HomeApi.ToFilmCard | app/lib/home-api.js:85-104 | Badge "Nouveau" with tone "accent" iff the film is new, else no badge. |
| HomeApi.NewBadgeWindow | app/lib/home-api.js:88-92 | A film created at t is new iff now ≤ t + 7 days, so always for a future t. |
| HomeApi.NonEmptyParts | app/lib/home-api.js:114 | `filter(Boolean)` keeps the non-empty labels in order. |
| HomeApi.ShowMeta | app/lib/home-api.js:114-119 | Duration and versions around " • ", either one alone, or "Durée à confirmer". |
| HomeApi.ToShowCard | app/lib/home-api.js:107-125 | A show card always has a meta line, a title and an image; its genre is the first element of a non-empty `genres` array, whatever it is ("" included), else "Spectacle". |
| HomeApi.DateLabel | app/lib/home-api.js:35-36 | A falsy date gives "". |
| HomeApi.ToComingCard | app/lib/home-api.js:127-141 | A coming card always has a date label, title, description and image. |
| HomeApi.FilmCards | app/lib/home-api.js:81-105 | One card per item in order; a null or undefined item throws. |
| HomeApi.ShowCards | app/lib/home-api.js:107-125 | One card per item in order, card i being `ToShowCard` of item i (genre as sent); a null or undefined item throws. |
| HomeApi.ComingCards | app/lib/home-api.js:127-141 | One card per item in order; a null or undefined item throws. |
| HomeApi.NormalizeHomeData | app/lib/home-api.js:143-162 | Throws iff the payload is null, a section is truthy but not an array, or a film, show or coming item is nullish; otherwise the slides, film cards (first 5 when limited), show cards and coming cards (first 2 when limited) of the sections. |
| HomeApi.NormalizeUndefined | app/lib/home-api.js:143-162 | Missing sections count as empty: no payload gives the fallback slide and empty lists. |
| HomeApi.Limits | app/lib/home-api.js:149-154 | The limits keep the first five films and the first two coming events; without them there is one card per item, card i from item i. |
| HomeApi.LimitedFilms | app/lib/home-api.js:149-154 | With the limits on, min(5, n) films and min(2, n) coming events, card i from item i. |
| HomeApi.HomeDataOf | app/lib/home-api.js:164-189 | Always at least one hero slide; a payload that normalises gives its data; a failed request or a throw while normalising gives the fallback data. |
| HomeApi.NullPayloadFallsBack | app/lib/home-api.js:181-185 | A null payload falls back as a failure does. |
| HomeApi.NullFilmFallsBack | app/lib/home-api.js:181-185 | So does a null film. |
| Trailer.DigitRun | app/components/TrailerModalButton.js:12 | The run of digits at the front, and no more. |
| Trailer.ReadUnit | app/components/TrailerModalButton.js:12 | Reading one unit never lengthens the text. |
| Trailer.ParseStartSeconds | app/components/TrailerModalButton.js:7-18 | Falsy or blank gives 0; an all-digit trimmed string gives its decimal value. app/components/EventTrailer.js defines the same helper. |
| Trailer.DigitRunOf | app/components/TrailerModalButton.js:12 | A digit run followed by a non-digit is read whole. |
| Trailer.ReadUnitOf | app/components/TrailerModalButton.js:12-17 | "{n}{unit}" followed by anything reads n and leaves the rest. |
| Trailer.HmsOfText | app/components/TrailerModalButton.js:12-17 | "{h}h{m}m{s}s" reads as 3600·h + 60·m + s. |
| Trailer.ParseHmsText | app/components/TrailerModalButton.js:7-17 | The parser reads "{h}h{m}m{s}s" as 3600·h + 60·m + s. |
| Trailer.ParseSecondsText | app/components/TrailerModalButton.js:11 | A bare number of seconds reads as itself. |
| Trailer.ParseAsHms | app/components/TrailerModalButton.js:11-17 | Trimmed text that is not all digits is read as hours, minutes, seconds from the front. |
| Trailer.ParseMinutesOnly | app/components/TrailerModalButton.js:12-17 | "1m30" is 60: the trailing 30 has no "s". |
| Trailer.ParseNoDigits | app/components/TrailerModalButton.js:12-17 | "abc" is 0. |
| Trailer.MetaOf | app/components/TrailerModalButton.js:20-52 | There is a meta iff the host contains "youtu.be" or "youtube.com" (the id and start per kind of link are in ShortLinkMeta, WatchLinkMeta and EmbedLinkMeta). |
| Trailer.GetYouTubeMeta | app/components/TrailerModalButton.js:20-52 | An unparseable link gives null; otherwise the meta of the parsed link. app/components/EventTrailer.js defines the same helper. |
| Trailer.ShortHost | app/components/TrailerModalButton.js:23 | "youtu.be" is a short host. |
| Trailer.SiteHost | app/components/TrailerModalButton.js:32 | "www.youtube.com" is a site host and not a short one. |
| Trailer.ShortLinkMeta | app/components/TrailerModalButton.js:23-31 | A youtu.be link names its path without the leading "/"; the start comes from a non-empty t, else from start. |
| Trailer.WatchLinkMeta | app/components/TrailerModalButton.js:32-46 | A youtube.com link that is not an embed names its v parameter (none without one); the start comes from t, else start. |
| Trailer.EmbedLinkMeta | app/components/TrailerModalButton.js:32-40 | A youtube.com embed link names the path after "/embed/"; the start comes from a non-empty start, else from t. |
| Trailer.ShortLinkRoundTrip | app/components/TrailerModalButton.js:23-31 | A youtu.be link with path "/id" and `t` set to the start reads back as that id and start. |
| Trailer.WatchLinkRoundTrip | app/components/TrailerModalButton.js:41-46 | A watch link with `v` set to the id and `t` to the start reads back as that id and start. |
| Trailer.StartPrecedence | app/components/TrailerModalButton.js:24-45 | With both given, short and watch links take t and embed links take start. |
| Trailer.VideoSuffix | app/components/TrailerModalButton.js:54 | A link ending in .mp4/.webm/.ogg/.mov/.m4v, alone or before "?", is a video file. app/components/EventTrailer.js defines the same helper. |
| Trailer.VideoConfigOf | app/components/TrailerModalButton.js:66-85 | "none" iff the trimmed link is empty; "youtube" iff it names a YouTube id; then "video" for a video file; "iframe" otherwise, with the link as source; a YouTube source is the embed address of the id and start the link names. app/components/EventTrailer.js defines the same helper. |
| Trailer.EmbedSrcSerialized | app/components/TrailerModalButton.js:70-79 | The embed address is the embed path, the id, "?" and the serialized autoplay, rel and (when not 0) start pairs. |
| Trailer.EmbedPairsPlain | app/components/TrailerModalButton.js:70-73 | The embed pairs serialize to "autoplay=1", "rel=0" and, for a non-zero start, "start=" and its decimal digits. |
| Trailer.EmbedSrcRoundTrip | app/components/TrailerModalButton.js:20-79 | The address the player is given, read again as a link, names the id and start it was built from. |
| Trailer.YouTubeConfigReadsBack | app/components/TrailerModalButton.js:66-80 | A YouTube player source, read again as a link, names the same id and start as the trailer link. |
| Trailer.EmbedQuery | app/components/TrailerModalButton.js:70-73 | The embed query has no t, and a start only when it is not 0. |
| Trailer.EmbedRoundTrip | app/components/TrailerModalButton.js:70-79 | The embed address reads back as the id and start it was built from. |
| Trailer.OpenClick | app/components/TrailerModalButton.js:116 | After a click the modal is open iff it already was or there is a trailer. |
| Trailer.PlayClick | app/components/EventTrailer.js:133-134 | After a click the player is on iff it already was or there is a trailer. |
| Trailer.NoTrailerNeverShown | app/components/TrailerModalButton.js:116-123 | Without a trailer nothing shows, and a click keeps it closed. |
| Trailer.TrailerShownAfterClick | app/components/TrailerModalButton.js:116-123 | With a trailer one click shows it; the player of app/components/EventTrailer.js does the same. |
| UrlQuery.Param | app/components/SiteHeader.js:26-28 | `get(key)` is the first value under key, and null iff no pair has it. |
| UrlQuery.Serialize | app/components/GenreFilter.js:8-11 | The query is "" iff there are no pairs. |
| UrlQuery.ParseSerialize | app/components/GenreFilter.js:8-11 | Reading a written query gives back its pairs in order. |
| UrlQuery.ParseWordPair | app/components/SiteHeader.js:26-28 | "name=value" of plain words reads as that one pair. |
| UrlQuery.QueryOfPathQuery | app/components/SiteHeader.js:26 | The query of "path?query" is query. |
| GenreFilter.BuildHref | app/components/GenreFilter.js:7-13 | "/evenements" iff type and genre are both empty; always under "/evenements". |
| GenreFilter.HrefRoundTrip | app/components/GenreFilter.js:7-13 | The link's query reads back as type then genre, each iff non-empty. |
| GenreFilter.ToLabel | app/components/GenreFilter.js:15-22 | "" when falsy; a string unchanged; an object by name, label, value or ""; anything else through `String`. |
| GenreFilter.ToLabelIdempotent | app/components/GenreFilter.js:15-22 | A label of a string, number or boolean is a string and its own label. |
| GenreFilter.OptionValues | app/components/GenreFilter.js:25-26 | Fails only when genres is truthy and not an array. |
| GenreFilter.UniqueSortedGenres | app/components/GenreFilter.js:24-30 | One option per distinct value. |
| GenreFilter.OptionValuesMembers | app/components/GenreFilter.js:25-26 | No duplicates; exactly the truthy labels and the truthy current genre. |
| GenreFilter.SortedTexts | app/components/GenreFilter.js:27-29 | Sorting keeps the options distinct and the same, and sorted under a total-preorder collation. |
| GenreFilter.GenreOptions | app/components/GenreFilter.js:24-29 | No duplicates and no empty options; exactly the non-empty labels plus the current genre; sorted under the collation. |
| GenreFilter.OptionsMembers | app/components/GenreFilter.js:25-26 | An option is offered iff it is a non-empty label or the current genre. |
| GenreFilter.PlainGenresOffered | app/components/GenreFilter.js:24-29 | Strings and numbers with a string or no current genre always give options. |
| GenreFilter.SelectValue | app/components/GenreFilter.js:38 | The current genre when truthy, else "" ("Tous"). |
| GenreFilter.SelectShowsAnOption | app/components/GenreFilter.js:38 | The select shows "Tous" or an offered genre. |
| GenreFilter.CurrentGenreOffered | app/components/GenreFilter.js:26 | A truthy current genre is a string among the options. |
| SiteHeader.ResolveType | app/components/SiteHeader.js:13 | "show" only for exactly "show", else "movie". |
| SiteHeader.EventsLinkType | app/components/SiteHeader.js:26-28 | An events link's type reads back from its query. |
| SiteHeader.EventsLinkActive | app/components/SiteHeader.js:24-30 | An events link is active iff the path is under "/evenements" and the types resolve alike. |
| SiteHeader.NavLinksActive | app/components/SiteHeader.js:21-36 | Films on an events page not for shows, Spectacles on one for shows, Cinéma under "/cinema", "#" links never. The same list is app/lib/site-data.js:1-7. |
| SiteHeader.AtMostOneActive | app/components/SiteHeader.js:21-36 | At most one header link is active, so Films and Spectacles never both are. |
| SiteHeader.PathsExclusive | app/components/SiteHeader.js:24-33 | No path is under both "/evenements" and "/cinema". |
| HeroSection.JsRem | app/components/HeroSection.js:24 | JavaScript's `%`: in [0, n) for a non-negative left side. |
| HeroSection.SafeIndex | app/components/HeroSection.js:19 | 0 without slides, else min(activeIndex, n − 1), a valid index for activeIndex ≥ 0. |
| HeroSection.NextIndex | app/components/HeroSection.js:34-36 | One on, and 0 after the last slide; in range. |
| HeroSection.PrevIndex | app/components/HeroSection.js:30-32 | One back, and the last slide before the first; in range. |
| HeroSection.PrevUndoesNext | app/components/HeroSection.js:30-36 | prev∘next and next∘prev are the identity on in-range indices. |
| HeroSection.NextStepsValue | app/components/HeroSection.js:34-36 | k steps forward land (i + k) mod n. |
| HeroSection.FullTurn | app/components/HeroSection.js:34-36 | n steps forward return to the start. |
| HeroSection.Carousel.constructor | app/components/HeroSection.js:17 | A first render shows slide 0. |
| HeroSection.Carousel.Shown | app/components/HeroSection.js:19 | The slide on show is a valid index. |
| HeroSection.Carousel.OffsetPercent | app/components/HeroSection.js:43 | The strip's offset stays within the slides. |
| HeroSection.Carousel.HasControls | app/components/HeroSection.js:96 | The controls exist only with more than one slide. |
| HeroSection.Carousel.SetSlides | app/components/HeroSection.js:18-19 | New slides keep the index. |
| HeroSection.Carousel.Next | app/components/HeroSection.js:34-36 | The next arrow moves to `NextIndex`. |
| HeroSection.Carousel.Prev | app/components/HeroSection.js:30-32 | The previous arrow moves to `PrevIndex`. |
| HeroSection.Carousel.Dot | app/components/HeroSection.js:128 | Dot k sets the index to k, which is then shown and lit. |
| HeroSection.Carousel.Tick | app/components/HeroSection.js:21-28 | An autoplay tick, only set up with more than one slide, is the next step. |
| HeroSection.LitDots | app/components/HeroSection.js:119-127 | One dot per slide. |
| HeroSection.OneDotLit | app/components/HeroSection.js:119-127 | Exactly one dot is lit: the slide on show. |
| HeroSection.ShrunkSlides | app/components/HeroSection.js:19-24 | An index left past the end shows the last slide, and one step forward wraps into range. |
| Sequences.SortBySorted | app/lib/cinema-api.js:161-163 | Sorting with a total preorder gives a sorted list. |
| Sequences.SortByStable | app/components/SessionSelector.js:107-109 | Sorting keeps elements of one class in input order. |
| Sequences.Take | app/lib/home-api.js:150 | `slice(0, n)` keeps the first min(n, length) items. |
| Sequences.Dedup | app/components/GenreFilter.js:25 | A `Set` keeps each value once, in first-insertion order. |

## Left out

- Network I/O is not modelled: `fetch`, the 8-second `AbortController` timeout, Next.js `revalidate`, `tags` and `cache`, `console.error` and the base-URL handling. Each `get*` function takes the request's outcome as a parameter (`Json.Fetch`), which is either a parsed body or a failure.
- The current instant and the local time zone are parameters. A local day is 86 400 000 ms, and summer time is not modelled.
- `Intl.DateTimeFormat` labels are function parameters: weekday, month, `formatDateLabel`, `getDateParts`, `formatShortDate` and `formatMonthLabel`. Their capitalisation and dot removal are left out with them.
- French `localeCompare` is the parameter `collate`. The sortedness results assume it is a total preorder.
- The WHATWG URL parser is a parameter that returns the hostname, pathname and query pairs, so host lower-casing and percent-decoding are its business. Form encoding is a pair of parameters whose round trip is `UrlQuery.FormCodec`.
- Trailer.EmbedSrcRoundTrip: stated for ids made of letters, digits, "_" and "-", for an encoding that keeps lower-case letters and digits as they are (`Trailer.KeepsPlain`), and for a parser that reads an embed address as the site host, the embed path and the query pairs (`Trailer.ReadsEmbedAddress`); the parser itself is not part of this model.
- Numbers are integers. `Number(s)` reads only trimmed, optionally signed decimal digit strings; decimals, exponents, hex and `Infinity` read as NaN. Floating-point durations, times and orders are not modelled, and neither is the float rounding of very large start times.
- `String.prototype.trim`, `toUpperCase` and `toLowerCase` work on code points. Case mapping is ASCII only, and UTF-16 surrogate pairs are not modelled.
- CinemaApi.SessionsByDate: a sort whose comparator meets a non-string session time throws in the source (`toMinutes` calls `split`), and so does the event sort when it compares two events tied on minutes and the left one's title is not a string (`title.localeCompare`). The model gives both outcomes as a failure (`SortThrows`). Which pairs a particular engine compares is not modelled: a tie of events in which one title is not a string counts as a throw, even though an engine might only ever pass that title as the right operand.
- CinemaApi.Register: event ids are `Json.Value` map keys compared by value. The source's `Map` compares object ids by identity, so two equal `_id` objects make two records there and one here. Ids that are strings or numbers behave the same in both.
- SessionSelector.GroupSessionsByDate: two kinds of session make the source throw: one whose truthy `date` is not a string (`date.split` at app/components/SessionSelector.js:73), and one whose day parses but whose `sessionTime` is not a string. Both crashes are a precondition (`Groupable`) rather than a modelled error.
- SessionSelector.Selector.constructor: requires the same `Groupable` sessions, since mounting groups them.
- SessionSelector.FallbackSessionId: stated for sessions whose ids are defined (`IdsDefined`). The `?.id ?? …` chain's behaviour with undefined ids is not stated.
- GenreFilter.UniqueSortedGenres: gives `None` as soon as an option is not a string. The source throws only when the sort compares such an option. Object identity in the `Set` is not modelled: equal objects count as one value.
- Trailer.VideoConfigOf: the link is a string or absent. A non-string `trailerLink` throws on `trim` in the source.
- HomeApi.NormalizeHomeData: the two limit options are booleans rather than arbitrary values. A non-numeric `order` sorts as 0 rather than as NaN.
- `new Date` maps years 0 to 99 to 19xx in `Calendar.NewDate`, so `parseDateParam` rejects them. `setDate` has no such rule (`Calendar.SetDate`). The round-trip lemmas are stated for years 1000 to 9999.
- `formatShortDate`, `normalizeShortLabel` and the labels of the session selector's day buttons are `Intl` output and are left out with it.
- Presentation is not modelled: JSX, CSS classes, the menus' `isOpen` flags, body-overflow and keyboard effects, portals, `router.push`, and the timing of `setInterval`. The pure rendering files are also out.

## Findings

| source | as written | input that shows it | evidently intended | confidence | as-written member | corrected member |
|---|---|---|---|---|---|---|
| app/programme/page.js:72-78 | The clamp compares key texts with `<`, and `formatDateKey` does not pad the year to four digits | `?date=0500-01-01` on 2026-10-15: it parses to 1 January 500, is formatted "500-01-01", which sorts after "2026-10-15", so a past day stays active (`ProgrammePage.ClampKeepsYear500`) | A requested day before today falls back to today | not executed; proved on the model only | ProgrammePage.ActiveDateKeyAsWritten | ProgrammePage.ActiveDateKey |
