# alexa-movie-seats, modelled in Dafny

An Alexa skill that answers "are there seats for *film* at *theater* on
*date*?" from the Alamo Drafthouse showtime feed. Its core is in
`index.js`:

- `getDateFromSlot`, `getWeekData`, `getWeekendData` and `w2date` turn the
  spoken `movie.date` slot into a window of local instants. The slot may be a
  date, an ISO week `2017-W20` or a weekend `2017-W20-WE`. The window runs
  from 00:00:00 of the first day to 23:59:59 of the last.
- `filterShowtimes` prunes the feed in cascade. The date must lie in the
  window. The theater and film names must pass a case-insensitive regular
  expression whose first space matches any run of white space. A session must
  be at the requested time and have enough seats left. A running counter
  counts the sessions that survive.
- `outputFindResults` and `outputQueryResults` render the result as one
  spoken sentence.

The project has these modules:

| file | module | what it holds |
|---|---|---|
| `wrappers.dfy` | `Wrappers` | `Option`, `Result` |
| `text.dfy` | `Text` | `split`/`join` on one character, `Number()` of digit strings, number rendering |
| `calendar.dfy` | `Calendar` | day numbers, weekdays, `w2date`, ISO 8601 week 1, midnight/23:59:59 |
| `date_slot.dfy` | `DateSlot`, `DateSlotFacts` | `getDateFromSlot` as a function and a method, what each slot shape resolves to |
| `name_match.dfy` | `NameMatch` | the `RegExp` name test, as a backtracking search and as a declarative occurrence |
| `feed.dfy` | `Feed` | the feed records, the result record, the moment-timezone calls |
| `showtime_filter.dfy` | `ShowtimeFilter` | the filter as specification functions and as nested loops with the counter |
| `filter_facts.dfy` | `FilterFacts` | what the filtered data is: members, order, no empty containers, count, idempotence |
| `render.dfy` | `Render` | the two sentence builders |
| `replies.dfy` | `Replies` | filter and renderers chained, as `findSeats`/`querySeats` use them |
| `scenarios.dfy` | `Scenarios` | a worked date with a 12-seat and a 3-seat session |

Days are numbered from 1970-01-01 in the proleptic Gregorian calendar. An
instant is a local wall-clock time in seconds, `day * 86400 + second of the
day`. The moment-timezone calls are the record `Feed.Moment`: the clock, a
date id read in a zone, and the two formatters. The model passes this record
as a parameter and does not look into it.

Where the specification text and the code differ, the model follows the code:

- Only the FIRST space of a theater or film term becomes `\s*`: `replace`
  with a string pattern replaces one occurrence. Every later space must be a
  literal space in the name (`NameMatch.LaterSpacesAreLiteral`).
- The weekend branch accepts any three-segment slot that does not parse as a
  date. It never checks for a 'W', it reads the week number as the second
  segment without its first character, and it never reads the third segment
  (`DateSlotFacts.WeekendSlot`).
- Two or more times are spoken as "a, and b": the code puts ", and " before
  the last time even when there are only two (`Render.TimeListForm`).
- A week of the form `YYYY-Wnn` need not lie inside year `YYYY`. Week 1
  starts on the Monday of the week that holds January 4th, which can fall in
  December of the year before (`Calendar.FirstMondayIsIsoWeekOne`).
- A slot with no known shape makes the code read the undeclared identifier
  `dateOutOfRange` (index.js:175), which throws a `ReferenceError` on that
  line; index.js:182 is never reached. An empty feed throws a `TypeError` on
  `Dates[0].Cinemas[0]`. The model returns `Failure(DateOutOfRange)` and
  `Failure(MissingTimeZone)` for these two cases.
- A YYYY-MM-DD slot whose day is 01 to 31 but past the end of its month, such
  as "2017-02-30", is accepted by `Date.parse` and so takes the parsed branch.
  moment-timezone then builds an invalid moment, which compares false, so no
  date passes. The model marks such a date `Overflow` and gives the invalid
  window (`DateSlotFacts.OverflowSlotAdmitsNothing`, `DateSlotFacts.February30`).

## Model

| member | source | states |
|---|---|---|
| Text.Split | index.js:162 | `split('-')` gives at least one segment, and no segment contains the separator |
| Text.JoinSnoc | index.js:60 | joining one more item adds exactly one separator before it |
| Text.JoinSplit | index.js:162 | joining the segments of a split with the separator gives the string back |
| Text.SplitJoin | index.js:162 | splitting separator-free segments joined by the separator gives the segments back |
| Text.SplitSize | index.js:162-169 | a split gives one segment more than there are separators |
| Text.JsNumber | index.js:227-230 | `Number()` of a year or week text, as `new Date(year, ...)` and `wn - 1` apply it, is a number exactly when the text is all digits |
| Text.EmptyIsZero | index.js:227-230 | `Number("")` is 0, so an empty year or week text is not `NaN` |
| Text.LeadingZero | index.js:230 | a leading zero does not change the number: "05" reads as 5, as in every week "W01" to "W09" |
| Text.IntToString | index.js:74 | the rendered seat count starts with '-' exactly when it is negative |
| Text.NumberOfNatToString | index.js:74 | reading a rendered count back gives the count |
| Text.PadDigitsValue | index.js:152 | a number below `10^w` written as `w` zero-padded digits, as an ISO date field is, reads back as itself |
| Calendar.WeekdayCycle | index.js:229 | `getDay()` of the next day is one more, modulo 7, and 1 January 1970 is a Thursday (4) |
| Calendar.NextJanFirst | index.js:227-228 | a year starts 365 days after the previous one, or 366 after a leap year |
| Calendar.FirstMonday | index.js:227-229 | `mon1` is a Monday and lies in the six days up to 4 January of the year `new Date` reads |
| Calendar.W2Date | index.js:224-231 | `w2date(year, wn, dayNb)` for `dayNb` in 0..6 lies `dayNb` days after a Monday and has weekday `dayNb + 1` mod 7 |
| Calendar.TwoDigitYear | index.js:227-228 | `new Date` reads the years 0..99 as 1900..1999: year `y` and year `1900 + y` have the same `mon1` and the same `w2date` |
| Calendar.OnOrAfter | index.js:229 | the first day on or after a given day with a given weekday is at most six days later |
| Calendar.MondayOfWeek | index.js:229 | subtracting the `getDay()` of the day six days later lands on a Monday at most six days earlier |
| Calendar.FirstMondayIsIsoWeekOne | index.js:227-229 | `mon1` is a Monday, at most six days before January 4th, and the only Monday whose week holds January 4th (ISO 8601 week 1) |
| Calendar.FirstMondayBeforeFirstThursday | index.js:227-229 | `mon1` is three days before the first Thursday of the year |
| Calendar.W2DateIsoWeekday | index.js:224-231 | `w2date(y, wn, i)` is day `i` of ISO week `wn`, its weekday is `i + 1` mod 7, and it is `i` days after day 0 of the week |
| Calendar.DaysAfterMonday | index.js:230 | whole weeks plus `dayNb` days after a Monday land on weekday `dayNb + 1` mod 7 |
| Calendar.MidnightAndLastSecond | index.js:182-183 | 00:00:00 and 23:59:59 are the first and last seconds of the same day |
| Calendar.FloorToMidnight | index.js:95 | `.hour(0).minute(0).second(0)` is the midnight of the instant's own day, at most one day earlier |
| Calendar.MidnightWithin | index.js:96 | a date's midnight lies in the window exactly when its day lies between the window's first and last day |
| DateSlot.ParseIsoDate | index.js:152 | every slot `Date.parse` accepts here consists of digits and dashes, and an overflow is a YYYY-MM-DD with a month from 01 to 12 and a day up to 31 that is past the end of that month; the day each form names is pinned by the `Iso*Form` lemmas |
| DateSlot.GetWeekData | index.js:205-221 | a result exists exactly when the year and the week text both read as numbers; `DateSlot.WeekDataDays` says which days it holds |
| DateSlot.GetWeekendData | index.js:188-202 | a result exists exactly when the year and the week text both read as numbers; `DateSlot.WeekendDataDays` says which days it holds |
| DateSlot.WeekDataDays | index.js:205-221 | the week runs from a Monday to the Sunday six days later |
| DateSlot.WeekendDataDays | index.js:188-202 | the weekend runs from a Saturday to the Sunday one day later |
| DateSlot.WeekSpan | index.js:194-195 | two day indices of one week have weekdays `i + 1` and `j + 1` mod 7 and lie `j - i` days apart |
| DateSlot.Normalise | index.js:182-183 | the window starts at 00:00:00 of the start's day and ends at 23:59:59 of the end's day |
| DateSlot.GetDateFromSlot | index.js:150-185 | every window starts at a midnight and ends at a later 23:59:59 |
| DateSlot.ResolveSlot | index.js:150-185 | the branches that fill `startDate`/`endDate` or mark the error, step by step, compute exactly `GetDateFromSlot` |
| DateSlotFacts.IsoYearForm | index.js:152 | `Date.parse` of a four-digit `YYYY` is 1 January of that year |
| DateSlotFacts.IsoMonthForm | index.js:152 | `YYYY-MM` is the first of that month for a month from 01 to 12, and not a date for any other two-digit month |
| DateSlotFacts.IsoDateForm | index.js:152 | `YYYY-MM-DD` is that very day when the month is 01 to 12 and the day lies in the month, an overflow when the day is past the month's end but at most 31, and not a date for any other two-digit month or day |
| DateSlotFacts.IsoDateSlot | index.js:178-183 | a spoken calendar date is that one day, 00:00:00 to 23:59:59 |
| DateSlotFacts.May14Of2017 | index.js:178-183 | "2017-05-14" is 14 May 2017, 00:00:00 to 23:59:59 |
| DateSlotFacts.ParsedSlotIsOneDay | index.js:178-183 | a slot that parses as a date covers that one day, 00:00:00 to 23:59:59 |
| DateSlotFacts.OverflowSlotAdmitsNothing | index.js:178-183 | a date that `Date.parse` accepts but whose day overflows its month gives the invalid window, so no date passes |
| DateSlotFacts.ClockSlotIsToday | index.js:83 | with no date spoken, the window is today's and holds the current instant |
| DateSlotFacts.WeekMarkerNotParsed | index.js:160-164 | a slot holding a 'W' never parses as a date |
| DateSlotFacts.SplitTwo | index.js:162-164 | `year-week` splits into exactly its two segments |
| DateSlotFacts.SplitThree | index.js:162-169 | `year-week-day` splits into exactly its three segments |
| DateSlotFacts.WeekSlot | index.js:164-167 | `year-Wnn` is Monday 00:00:00 to Sunday 23:59:59 of week `nn`, or the invalid window when either part is not a number |
| DateSlotFacts.WeekendSlot | index.js:169-172 | three unparsed segments are Saturday 00:00:00 to Sunday 23:59:59 of the week, with no 'W' check and the third segment unread |
| DateSlotFacts.OutOfRangeSlot | index.js:160-176 | an unparsed slot is out of range exactly when it has no dash, three or more dashes, or one dash and no 'W' after it |
| DateSlotFacts.Year2017 | index.js:227-229 | "2017" is 2017, and week 1 of 2017 starts on Monday 2 January |
| DateSlotFacts.Week20 | index.js:211 | "W20" names week 20 |
| DateSlotFacts.Week20Of2017 | index.js:164-167 | "2017-W20" is 15 May 2017 00:00:00 to 21 May 2017 23:59:59 |
| DateSlotFacts.Weekend20Of2017 | index.js:169-172 | "2017-W20-WE" is 20 May 2017 00:00:00 to 21 May 2017 23:59:59 |
| DateSlotFacts.February30 | index.js:152 | "2017-02-30" is accepted as an overflowing date and resolves to the invalid window, not to a weekend |
| DateSlotFacts.TwoDigitYearWeek | index.js:227-228 | a two-digit year slot such as "17-W20" resolves to the same window as "1917-W20" |
| NameMatch.FoldIgnoresCase | index.js:104 | under the 'i' flag two characters compare equal exactly when they are equal or the same ASCII letter in its two cases |
| NameMatch.IndexOf | index.js:104 | the first occurrence of a character, with none before it |
| NameMatch.ToPattern | index.js:104 | `replace(' ', '\\s*')` widens the first space only: head, optional `\s*`, tail, with no space in the head |
| NameMatch.GapOfSpacesThenAt | index.js:104 | a backtracking `\s*` match followed by the rest is a run of white space followed by the rest |
| NameMatch.SpacesThenAtOfGap | index.js:104 | every run of white space followed by the rest is found by the backtracking `\s*` |
| NameMatch.SpacesThenAtIff | index.js:104 | `\s*` then the rest matches exactly when some run of white space precedes the rest |
| NameMatch.MatchFromIff | index.js:104 | the pattern matches at a position exactly when it occurs there with some gap |
| NameMatch.SearchFromIff | index.js:104 | trying each start position finds a match exactly when an occurrence exists |
| NameMatch.RegExpMatches | index.js:104 | `name.match(new RegExp(term.replace(' ', '\\s*'), 'i'))` is non-null exactly when the pattern occurs in the name, ignoring case |
| NameMatch.LaterSpacesAreLiteral | index.js:104 | later spaces in the term must be single literal spaces in the name |
| NameMatch.LakeLinePattern | index.js:104 | "lake line" becomes `lake\s*line` |
| NameMatch.LakelineExample | index.js:104 | the term "lake line" finds any name containing "Lakeline" |
| NameMatch.ExactNameMatches | index.js:104 | a name always matches itself as a term |
| NameMatch.FirstSpaceWidens | index.js:104 | the first space of a term matches any run of white space, including none |
| ShowtimeFilter.KeptSessions | index.js:113-125 | the `map(...).filter(Boolean)` of a film's sessions keeps only listed sessions that pass the time and seat tests |
| ShowtimeFilter.KeptFilms | index.js:108-128 | every film the film filter keeps passes the name test and has a showtime |
| ShowtimeFilter.KeptCinemas | index.js:103-131 | every cinema the theater filter keeps passes the theater test and has a film |
| ShowtimeFilter.KeptDates | index.js:94-134 | every date the date filter keeps lies in the window and has a cinema |
| ShowtimeFilter.FilterSpec | index.js:81-137 | fails for lack of a time zone exactly when there is no first cinema, and as out of range exactly when the slot has no known shape |
| ShowtimeFilter.MapSessions | index.js:113-125 | the session loop gives the entries of exactly the surviving sessions and adds their number to the counter |
| ShowtimeFilter.ShowTimesSnoc | index.js:121-125 | one more surviving session adds its entry at the end |
| ShowtimeFilter.FilterFilms | index.js:108-128 | the film loop keeps exactly `KeptFilms` and adds `FilmsCount` to the counter |
| ShowtimeFilter.FilterCinemas | index.js:103-131 | the cinema loop keeps exactly `KeptCinemas` and adds `CinemasCount` to the counter |
| ShowtimeFilter.FilterDates | index.js:94-134 | the date loop keeps exactly `KeptDates` and adds `DatesCount` to the counter |
| ShowtimeFilter.FilterShowtimes | index.js:81-137 | `filterShowtimes` computes exactly `FilterSpec` |
| FilterFacts.SubsequenceSnoc | index.js:94 | `filter` keeps order, whether or not the next element is kept |
| FilterFacts.KeptSessionsMembers | index.js:113-125 | a session survives exactly when it is one of the film's sessions and passes the time and seat tests |
| FilterFacts.KeptSessionsOrder | index.js:125 | the surviving sessions keep their order |
| FilterFacts.ShowTimesOfMembers | index.js:121-124 | entry `k` is the formatted time and the seats of session `k` |
| FilterFacts.PrunedFilmShowTimes | index.js:113-127 | `f.ShowTimes` lists exactly the passing sessions, in order |
| FilterFacts.KeptFilmsMembers | index.js:108-128 | a film survives exactly when its name passes and one of its sessions survives |
| FilterFacts.KeptFilmsOrder | index.js:108 | the surviving films keep their order |
| FilterFacts.KeptCinemasMembers | index.js:103-131 | a cinema survives exactly when its name passes and one of its films survives |
| FilterFacts.KeptCinemasOrder | index.js:103 | the surviving cinemas keep their order |
| FilterFacts.KeptDatesMembers | index.js:94-134 | a date survives exactly when its midnight is in the window and one of its cinemas survives |
| FilterFacts.KeptDatesOrder | index.js:94 | the surviving dates keep their order |
| FilterFacts.KeptFilmsNonEmpty | index.js:127 | every surviving film has a showtime |
| FilterFacts.KeptCinemasNonEmpty | index.js:130 | every surviving cinema has a film |
| FilterFacts.KeptDatesNonEmpty | index.js:133 | every surviving date has a cinema |
| FilterFacts.FilmsCountIsTotal | index.js:120 | the counter's share for a cinema is the number of showtimes in its surviving films |
| FilterFacts.CinemasCountIsTotal | index.js:120 | the counter's share for a date is the number of showtimes in its surviving cinemas |
| FilterFacts.DatesCountIsTotal | index.js:120 | the counter ends at the number of showtimes in the returned data |
| FilterFacts.FilmsCountZero | index.js:120 | a cinema adds nothing to `showtimeCount` exactly when none of its films that pass the name test keeps a session |
| FilterFacts.CinemasCountZero | index.js:120 | a date adds nothing to `showtimeCount` exactly when none of its cinemas that pass the theater test counts a session |
| FilterFacts.DatesCountZero | index.js:120 | `showtimeCount` is 0 exactly when no date inside the window counts a session |
| FilterFacts.FilmsTotalPositive | index.js:127 | with no empty film, no showtimes means no films |
| FilterFacts.CinemasTotalPositive | index.js:130 | with no empty cinema, no showtimes means no cinemas |
| FilterFacts.DatesTotalPositive | index.js:133 | with no empty date, no showtimes means no dates |
| FilterFacts.PrunedFilmTwice | index.js:113-127 | a surviving film is kept again, unchanged |
| FilterFacts.KeptFilmsTwice | index.js:108-128 | filtering the surviving films again changes nothing |
| FilterFacts.PrunedCinemaTwice | index.js:103-131 | a surviving cinema is kept again, unchanged |
| FilterFacts.KeptCinemasTwice | index.js:103-131 | filtering the surviving cinemas again changes nothing |
| FilterFacts.PrunedDateTwice | index.js:94-134 | a surviving date is kept again, unchanged |
| FilterFacts.KeptDatesTwice | index.js:94-134 | filtering the surviving dates again changes nothing |
| FilterFacts.CountTwice | index.js:120 | filtering the returned dates again counts the same `showtimeCount` |
| FilterFacts.KeptSessionsMultiplicity | index.js:113-125 | as many sessions survive as there are positions whose session passes, so equal sessions survive once each |
| FilterFacts.KeptFilmsMultiplicity | index.js:108-128 | as many films survive as there are positions whose film is kept |
| FilterFacts.KeptCinemasMultiplicity | index.js:103-131 | as many cinemas survive as there are positions whose cinema is kept |
| FilterFacts.KeptDatesMultiplicity | index.js:94-134 | as many dates survive as there are positions whose date is kept |
| FilterFacts.DateInWindowDays | index.js:95-96 | against a resolved window, a date passes exactly when its day lies in the window's days |
| FilterFacts.TheaterCriterion | index.js:88-90 | 'all theaters' or no theater admits every cinema; any other term is the name test |
| FilterFacts.FilmCriterion | index.js:109 | a given film name is the name test; no name admits every film |
| FilterFacts.SessionCriterion | index.js:114-119 | a session passes exactly when it is at the requested time, if any, and has at least the non-zero minimum of seats, if any |
| FilterFacts.KeptFilmsPass | index.js:108-128 | every surviving film passes the name test |
| FilterFacts.KeptCinemasPass | index.js:103-131 | every surviving cinema passes the name test |
| FilterFacts.KeptDatesPass | index.js:94-134 | every surviving date lies in the window |
| FilterFacts.FilterResultFacts | index.js:81-137 | the data is the surviving dates, every element passes, none is empty, and `showtimeCount` is the number of showtimes, zero exactly when no date survives |
| Render.OutputFindResults | index.js:48-64 | no showtimes gives "There are no seats available that meet that criteria."; otherwise the answer starts with "For " |
| Render.TimeListForm | index.js:55-60 | no time is "", one time is spoken alone, and several are joined by ", " with ", and " before the last |
| Render.ShowtimePlural | index.js:60 | a film's sentence ends in "showtimes" exactly when it has more than one showtime |
| Render.FindCinemaOne | index.js:54-61 | a cinema with one film is "the X cinema " and that film's clause |
| Render.FindCinemaSnoc | index.js:54-61 | a further film of a cinema adds ". " and that film's clause |
| Render.FindDateOne | index.js:53-62 | a date with one cinema is "For D, " and that cinema's clause |
| Render.FindDateSnoc | index.js:53-62 | a further cinema of a date adds ". " and that cinema's clause |
| Render.FindResultsOne | index.js:52-63 | with showtimes counted, one date is the whole answer |
| Render.FindResultsSnoc | index.js:52-63 | with showtimes counted, a further date adds ". " and that date's clause |
| Render.OutputQueryResults | index.js:66-79 | no showtimes gives "There are no available showtimes meeting that criteria."; otherwise the answer starts with "For " |
| Render.SeatItemForm | index.js:74 | "seat" appears exactly when the count is 1, and the spoken count reads back as the count |
| Render.SeatListForm | index.js:73-75 | the query answer joins the seat items with ", " only, with no "and" |
| Render.QueryCinemaOne | index.js:72-76 | a cinema with one film is "the X cinema " and that film's clause |
| Render.QueryCinemaSnoc | index.js:72-76 | a further film of a cinema adds ". " and that film's clause |
| Render.QueryDateOne | index.js:71-77 | a date with one cinema is "For D, " and that cinema's clause |
| Render.QueryDateSnoc | index.js:71-77 | a further cinema of a date adds ". " and that cinema's clause |
| Render.QueryResultsOne | index.js:70-78 | with showtimes counted, one date is the whole answer |
| Render.QueryResultsSnoc | index.js:70-78 | with showtimes counted, a further date adds ". " and that date's clause |
| Render.JoinHead | index.js:63 | a joined list starts with its first item |
| Render.NoResultsIffZero | index.js:48-79 | when results with showtimes hold dates, each renderer says its "no ..." sentence exactly when the count is zero |
| Replies.NoResultsSentence | index.js:27-30 | after a successful filter, each "no ..." sentence is said exactly when no showtime survived; otherwise the answer starts with "For " |
| Scenarios.SingleFilmDate | index.js:94-134 | for a date with one passing cinema and film, the count is the number of surviving sessions and the film's showtimes are theirs |
| Scenarios.TwoSeatItems | index.js:73-75 | a 12-seat and a 3-seat showtime are spoken "12 seats at x, 3 seats at y" |
| Scenarios.NoMinimumScenario | index.js:113-125 | with no seat minimum, both sessions survive, the count is 2 and the query answer lists both |
| Scenarios.MinimumTenScenario | index.js:117-119 | with a minimum of 10 seats, only the 12-seat session survives, the count is 1 and the find answer says "showtime" |

## Left out

- `exports.handler`, `findSeats` and `querySeats` (index.js:8-46) are Alexa
  SDK glue: they read the slots, call the fetch, filter and render, and emit
  the sentence. Their defaults are the theater 'Lakeline' (index.js:6, 23) and
  a minimum of 10 seats for `findSeats` (index.js:25). A caller of the model
  passes these defaults in the `Query`, and `Replies.NoResultsSentence` covers
  the filter-then-render chain. The "Something went wrong" reply to a rejected
  promise is not modelled.
- `fetchShowtimes` (index.js:139-148) is an HTTPS request and `JSON.parse`.
  The feed is a parameter of the model.
- moment-timezone is not modelled. Time zones, daylight saving, the
  `format('dddd MMMM Do')` and `format('LT')` texts, and the clock are the
  uninterpreted `Feed.Moment` record. The filter reads each date's midnight
  through `instantOf`.
- DateSlot.ParseIsoDate: `Date.parse` accepts more than the ISO date-only
  forms YYYY, YYYY-MM and YYYY-MM-DD modelled here. The model omits date-times
  and the implementation-specific fallback formats. Its day range (01 to 31,
  then overflow by the month's length) follows V8's date-only parser. The no-slot path is
  modelled as `Clock(now)`, since `moment().format()` always parses.
- Text.JsNumber: `Number()` is modelled on digit strings only, with the empty
  string read as 0. The model reads every other string as `NaN`, which yields
  the invalid window that admits no date. `Number()` itself also reads signs,
  surrounding white space, decimals, exponents, the `0x`, `0o` and `0b`
  prefixes and `Infinity` as numbers; these forms are not modelled.
- Text.DigitsValue: the value of a digit string is exact. `Number()` rounds a
  digit string above 2^53 to the nearest double, and the model does not.
- `parseInt` (index.js:85, 117) is not modelled: the seat minimum and
  `SeatsLeft` are integers in the model already. A seat text that reads as
  `NaN` is not represented.
- Calendar.W2Date: the JavaScript `Date` range of ±8.64e15 ms is not modelled.
  A year or week number that puts `w2date` outside it (for example
  "2017-W20000000" or "300000-W01") gives an Invalid Date in the source, and
  then no date passes; the model computes a valid far-off window instead.
- DateSlot.GetWeekData and DateSlot.GetWeekendData: the round trip through
  `format('YYYY-MM-DD')` and `moment.tz` (index.js:198-199, 217-218) is
  modelled as exact. For years above 9999 moment writes a longer year,
  which the model does not bound.
- NameMatch.Fold: case folding covers ASCII letters only. Regular-expression
  metacharacters in a spoken term are treated as literal characters.
- The feed's `Series[0].Formats[0]` nesting is flattened into `Film.Sessions`.
  Other series and formats are not read by the source either. A film that
  passes the name test but has an empty `Series` or `Formats` makes
  index.js:113 throw a `TypeError`; the model has no such film.
- The source rewrites the feed in place (`d.FormattedDate`, `d.Cinemas`,
  `c.Films`, `f.ShowTimes`) and returns the filtered array. The model returns
  new values, so the aliasing of the caller's feed object is not captured.
- The `TypeError` the source throws for an empty feed and the
  `ReferenceError` it throws for an unrecognised slot are modelled as
  `Failure(MissingTimeZone)` and `Failure(DateOutOfRange)`.
- `test.js` is not part of this model.
