# DateRange

A model of the `DateRange` class of the CakePHP DateRange plugin (`Lib/DateRange.php`). The class is a date range with:
- an optional start and an optional end, both PHP `DateTime` objects;
- an optional timezone used for dates built later;
- fluent setters that update these fields in place;
- `adjustTimes()`, which snaps the bounds to the edges of a day, either midnight to midnight or the "litle" business day (21:00 the evening before to 20:59:59);
- `adjustTimezone()`, which re-reads both bounds on another zone's wall clock;
- `valid()`, which says whether the range is backwards;
- `contains()`, which tests a date inclusively or exclusively, and where an unset bound never rejects;
- `period()`, which steps from the start to the end.

The model has five modules, one per file:

- `Calendar` (`calendar.dfy`): the proleptic Gregorian calendar that PHP dates live in.
  - Valid dates and leap years.
  - A closed-form day number counted from 1970-01-01.
  - Stepping one day back or forward, and shifting by any number of days.
  - Day numbers are strictly increasing in calendar order, so they are injective.
- `Moments` (`moments.dfy`): a PHP `DateTime` as a value.
  - It holds a civil date, the seconds since local midnight and the UTC offset of its zone.
  - Its instant is the Unix timestamp that PHP compares objects by.
  - Every operation that moves the wall clock renormalises through one function. These are `setTime` with fields past the day, `modify("+N seconds")`, `setTimezone` and `setTimestamp`.
  - The round trips follow from one uniqueness lemma: the same offset and instant give the same date-time.
- `TimeText` (`time_text.dfy`): the text of a time of day.
  - `explode(':')` and `implode(':')`, with round trips both ways.
  - The loop that pads the pieces of a default time to three.
  - PHP's reading of a numeric string as an integer.
  - `date('H:i:s')` of a clock time.
- `DateRanges` (`date_range.dfy`): the class itself.
  - `DateRange` is a Dafny `class` whose fields `startDate`, `endDate` and `timezone` the methods update in place.
  - `buildDate` is specified by the function `NormalizeDate`, and the default-time rule is proved as lemmas about that function.
  - `contains` and `valid` are tied to the interval predicates `Within` and `Ordered`.
  - `period` is tied to the ghost predicate `IsPeriod`. Its steps are proved unique and of the expected shape.
- `DateRangeScenarios` (`scenarios.dfy`): the situations of the class's test case (`Test/Case/Lib/DateRangeTest.php`), replayed through the methods.
  - Each scenario states in its `ensures` what the test expects of the result.
  - The expectations hold for every time of day at which the test could run, and for every process default offset.
  - One exception: `contains('2014-01-01 00:00:00', false)` (test line 277) is true except when the wall clock reads exactly 00:00:00. At that moment the date keeps its midnight, equals the exclusive start, and is rejected (`JanuaryStartEdge`).

Inputs and outside state:
- A timezone is a fixed UTC offset (`Zone`). A range with no timezone uses `defaultOffset`, the offset of the process default timezone, which is fixed when the range is created.
- A date given as a string is taken as the parser's result (`Parsed`): a civil date, a time of day (midnight when the string has none) and a zone, when the string names one.
- The wall clock that `contains()` reads through `date('H:i:s')` is the parameter `now` of `Contains`.

## Model

| member | source | states |
|---|---|---|
| `Calendar.PrevDayFacts` | Lib/DateRange.php:220 | subtracting one day from a valid date gives a valid date whose day number is one less |
| `Calendar.NextDayFacts` | Lib/DateRange.php:300 | the next day of a valid date is valid and its day number is one more |
| `Calendar.PrevNextInverse` | Lib/DateRange.php:220 | stepping a day back and a day forward undo each other |
| `Calendar.PrevDayUnique` | Lib/DateRange.php:220 | the previous day is the only valid date whose day number is one less |
| `Calendar.ShiftDaysFacts` | Lib/DateRange.php:282 | shifting a date by k days lands on a valid date exactly k day numbers away |
| `Calendar.DayNumberIncreasing` | Lib/DateRange.php:320 | a date earlier in the calendar has a smaller day number |
| `Calendar.DayNumberInjective` | Lib/DateRange.php:320 | distinct valid dates have distinct day numbers |
| `Calendar.UnixEpochIsDayZero` | Lib/DateRange.php:263-264 | day numbers count from 1970-01-01, the origin of Unix timestamps |
| `Calendar.PrevDayExamples` | Test/Case/Lib/DateRangeTest.php:193-236 | the previous day across a year end, a leap day, 1 March of leap and common years, and the century rules of 1900 and 2000 |
| `Moments.Normalize` | Lib/DateRange.php:282 | a wall-clock time past the day is carried into the date, giving a well-formed date-time at the same instant |
| `Moments.InstantDetermines` | Lib/DateRange.php:320 | two well-formed date-times with the same offset and the same instant are equal |
| `Moments.SetTime` | Lib/DateRange.php:282 | setTime lands at the start of the day plus the given fields; within one day it keeps the date and sets the clock |
| `Moments.SubDay` | Lib/DateRange.php:220 | subtracting P1D keeps the clock and zone and moves the instant back exactly one day |
| `Moments.AddSeconds` | Lib/DateRange.php:300 | advancing the wall clock by n seconds moves the instant by n and keeps the zone |
| `Moments.WithOffset` | Lib/DateRange.php:197 | setTimezone keeps the instant and takes the new zone's offset |
| `Moments.FromTimestamp` | Lib/DateRange.php:263-264 | setTimestamp gives a well-formed date-time at exactly that timestamp in the given zone |
| `Moments.FromTimestampInstant` | Lib/DateRange.php:262-265 | rebuilding a date-time from its own timestamp and offset gives it back |
| `Moments.WithOffsetRoundTrip` | Lib/DateRange.php:196-201 | changing zone is reading the same timestamp in the new zone, and changing back restores the original |
| `Moments.AddSecondsTwice` | Lib/DateRange.php:298-301 | two advances compose into one advance by the sum |
| `Moments.AddZeroSeconds` | Lib/DateRange.php:296-300 | advancing by zero seconds leaves the date-time unchanged |
| `Moments.WithOffsetExamples` | Test/Case/Lib/DateRangeTest.php:180-190 | New York midnight and 23:59:59 read in Chatham (+13:45) are 18:45:00 the same day and 18:44:59 the next |
| `TimeText.Explode` | Lib/DateRange.php:278 | explode yields at least one piece and no piece holds a colon |
| `TimeText.ImplodeExplode` | Lib/DateRange.php:278 | joining the pieces with colons gives back the exploded string |
| `TimeText.ExplodeImplode` | Lib/DateRange.php:278 | exploding joined colon-free pieces gives the pieces back |
| `TimeText.PadTimeParts` | Lib/DateRange.php:279-281 | the pieces are kept in order and '00' is appended until there are at least three |
| `TimeText.TwoDigitsValue` | Lib/DateRange.php:282 | a two-digit field holds no colon and reads back as its number |
| `TimeText.ClockTextFields` | Lib/DateRange.php:332 | date('H:i:s') splits into three fields that read back as hour, minute and second, and is '00:00:00' exactly at midnight |
| `TimeText.LeadingBlankIgnored` | Lib/DateRange.php:282 | a blank before a setTime argument does not change the integer it reads as |
| `TimeText.SignApplies` | Lib/DateRange.php:282 | a '-' before the digits of a setTime argument negates it and a '+' leaves it as it is |
| `TimeText.NonNumericReadsZero` | Lib/DateRange.php:282 | a setTime argument that starts with neither a blank, a sign nor a digit reads as 0 |
| `TimeText.NumericPieceExamples` | Lib/DateRange.php:282 | '-1' reads as -1, ' 5' as 5, '+30' as 30, '07' as 7 and 'x1' as 0 |
| `TimeText.NegativeHourFields` | Lib/DateRange.php:278-282 | '-1:00:00' splits into the fields -1, 0 and 0 |
| `TimeText.DefaultTimeExamples` | Lib/DateRange.php:278-282 | '23:59:59' splits into 23, 59, 59; the short times '21' and '21:30' read their missing fields as 0 |
| `DateRanges.NormalizeDate` | Lib/DateRange.php:257-286 | buildDate always yields a well-formed date-time |
| `DateRanges.LitleStart` | Lib/DateRange.php:218-223 | a 'litle' start is 21:00:00 on the previous calendar day, three hours before the local midnight |
| `DateRanges.LitleEnd` | Lib/DateRange.php:224-228 | a 'litle' end is 20:59:59 on the same day, one second before 21:00 |
| `DateRanges.MidnightStart` | Lib/DateRange.php:232-236 | a midnight start is 00:00:00 on the same day, at its first instant |
| `DateRanges.MidnightEnd` | Lib/DateRange.php:237-241 | a midnight end is 23:59:59 on the same day, one second before the next midnight |
| `DateRanges.InitialBound` | Lib/DateRange.php:91-96 | a bound that was given is well formed |
| `DateRanges.StepsExtend` | Lib/DateRange.php:298-301 | one pass of the period loop keeps every collected date a whole number of steps from the start and not after the end |
| `DateRanges.StepAfter` | Lib/DateRange.php:300 | advancing the n-th step by one step gives step n + 1 |
| `DateRanges.DateRange.Unset` | Lib/DateRange.php:53-67 | a new range has no start, no end and no timezone |
| `DateRanges.DateRange.Create` | Lib/DateRange.php:90-100 | the constructor builds each non-empty bound (start at 00:00:00, end at 23:59:59 by default) and fails exactly when the range is backwards |
| `DateRanges.DateRange.BuildDate` | Lib/DateRange.php:257-286 | the loop-and-explode computation of buildDate agrees with its specification `NormalizeDate` |
| `DateRanges.DateRange.SetStart` | Lib/DateRange.php:141-144 | the start becomes the input built with default time 00:00:00 in the current zone; the end and zone are untouched |
| `DateRanges.DateRange.SetEnd` | Lib/DateRange.php:157-160 | the end becomes the input built with default time 23:59:59 in the current zone; the start and zone are untouched |
| `DateRanges.DateRange.SetTimezone` | Lib/DateRange.php:173-182 | the timezone is replaced or cleared, and stored bounds keep their own zone |
| `DateRanges.DateRange.AdjustTimezone` | Lib/DateRange.php:192-203 | the zone is set when one is given, and both bounds move to its wall clock at the same instants |
| `DateRanges.DateRange.AdjustTimes` | Lib/DateRange.php:216-243 | 'litle' moves both set bounds to the litle edges; any other mode to midnight and 23:59:59; unset bounds stay unset |
| `DateRanges.DateRange.Period` | Lib/DateRange.php:294-303 | as written: the dates form the period from the start to the end, and the stored start is left one step past the last of them |
| `DateRanges.DateRange.PeriodDates` | Lib/DateRange.php:294-303 | the returned dates are exactly the steps of the period from the start to the end, and the range is unchanged |
| `DateRanges.DateRange.Valid` | Lib/DateRange.php:311-321 | a range is valid exactly when some instant lies inside it, bounds included |
| `DateRanges.DateRange.Contains` | Lib/DateRange.php:331-365 | the date, built with the current clock as default time, passes the end check and the start check; an unset bound passes |
| `DateRanges.OrderedIffNonEmpty` | Lib/DateRange.php:311-321 | the order test of valid() holds exactly when the inclusive range is non-empty |
| `DateRanges.WithinInterval` | Lib/DateRange.php:331-365 | with both bounds set, containment is the closed interval, or the open one when not inclusive |
| `DateRanges.BoundsAreEdges` | Lib/DateRange.php:337-360 | in an ordered range both bounds are contained inclusively and neither exclusively |
| `DateRanges.UnsetBoundNeverRejects` | Lib/DateRange.php:334-362 | with no bounds every instant is contained, and dropping a bound never removes an instant |
| `DateRanges.ExclusiveWithinInclusive` | Lib/DateRange.php:337-360 | what is contained exclusively is contained inclusively |
| `DateRanges.DefaultTimeApplies` | Lib/DateRange.php:271-283 | on a midnight parse, a default time other than '' and '00:00:00' whose fields fall inside the day changes the time and keeps the date |
| `DateRanges.StringZoneWins` | Lib/DateRange.php:268 | buildDate's result carries the zone named in the string when there is one, and otherwise the range's timezone or the process default; with a zone in the string, the range's timezone makes no difference |
| `DateRanges.EmptyArgumentUnset` | Lib/DateRange.php:90-96 | a constructor argument leaves its bound unset exactly when it is absent or the timestamp 0, and is otherwise built by buildDate |
| `DateRanges.DefaultTimeOnlyAtMidnight` | Lib/DateRange.php:270-285 | a parsed string keeps its own time unless that time is midnight and the default time is neither empty nor '00:00:00' |
| `DateRanges.DefaultClockTime` | Lib/DateRange.php:277-283 | a midnight parse with a clock-text default takes exactly that clock time on the parsed date and zone |
| `DateRanges.NoDefaultForObjectsAndTimestamps` | Lib/DateRange.php:259-266 | a DateTime is copied unchanged and a timestamp lands on its instant in the current zone, whatever the default time |
| `DateRanges.LitleDayLength` | Lib/DateRange.php:134-135 | a litle day and a midnight day on one calendar date both last one day less one second |
| `DateRanges.SnapIdempotent` | Lib/DateRange.php:216-243 | snapping a bound twice is snapping it once, and a litle end is the midnight end three hours earlier |
| `DateRanges.LitleExamples` | Test/Case/Lib/DateRangeTest.php:193-236 | the litle moves of the test case across a year end and a leap day |
| `DateRanges.PeriodUnique` | Lib/DateRange.php:294-303 | the period from a start to an end with a positive step is unique |
| `DateRanges.PeriodStepInRange` | Lib/DateRange.php:298 | every step of a period lies at or before the end |
| `DateRanges.PeriodShape` | Lib/DateRange.php:294-303 | a period is non-empty exactly when the range is ordered, begins at the start, rises by the step and ends within one step of the end |
| `DateRangeScenarios.EndOfDayDefault` | Test/Case/Lib/DateRangeTest.php:150-158 | a midnight date built with default time '23:59:59' is 23:59:59 on that date |
| `DateRangeScenarios.JanuaryContains` | Test/Case/Lib/DateRangeTest.php:338-347 | January 2014 holds 2014-01-01 and neither 2014-02-01 nor 2013-12-31, at any time of day |
| `DateRangeScenarios.TimezoneIsNotRetroactive` | Test/Case/Lib/DateRangeTest.php:102-110 | a start set in New York stays at -05:00 after the timezone changes |
| `DateRangeScenarios.NewYorkToChatham` | Test/Case/Lib/DateRangeTest.php:169-190 | a January range in New York re-read in Chatham runs from 2014-01-01 18:45:00 to 2014-02-01 18:44:59 |
| `DateRangeScenarios.LitleYearEnd` | Test/Case/Lib/DateRangeTest.php:193-213 | litle January 2014 runs from 2013-12-31 21:00:00 to 2014-01-31 20:59:59 |
| `DateRangeScenarios.LitleLeapDay` | Test/Case/Lib/DateRangeTest.php:215-225 | a litle range from the 2016 leap day starts at 2016-02-28 21:00:00 |
| `DateRangeScenarios.LitleTimeOfDay` | Test/Case/Lib/DateRangeTest.php:227-236 | litle adjustment ignores the time of day of the bounds |
| `DateRangeScenarios.MidnightAdjustment` | Test/Case/Lib/DateRangeTest.php:240-250 | the default adjustment snaps 11:11:11 to midnight and 07:08:09 to 23:59:59 on the same dates |
| `DateRangeScenarios.Validity` | Test/Case/Lib/DateRangeTest.php:253-267 | valid() is false for a backwards range and true for a forwards, a one-day and an open-ended one; the constructor refuses the backwards one |
| `DateRangeScenarios.AdjustedJanuary` | Test/Case/Lib/DateRangeTest.php:271-272 | January 2014 after adjustTimes() runs from 2014-01-01 00:00:00 to 2014-01-31 23:59:59 |
| `DateRangeScenarios.JanuaryStartEdge` | Test/Case/Lib/DateRangeTest.php:277-279 | the first of January is inside exclusively exactly when the wall clock is not at midnight |
| `DateRangeScenarios.JanuaryLastSecond` | Test/Case/Lib/DateRangeTest.php:283-285 | 2014-01-31 23:59:59 is inside inclusively and outside exclusively |
| `DateRangeScenarios.FebruaryMidnight` | Test/Case/Lib/DateRangeTest.php:286-287 | 2014-02-01 falls outside January at any time of day, for an inclusive and for an exclusive contains() |
| `DateRangeScenarios.NegativeDefaultHour` | Lib/DateRange.php:282 | buildDate('2014-01-01', '-1:00:00') rolls back to 2013-12-31 23:00:00 in the process default zone |
| `DateRangeScenarios.OpenEnded` | Test/Case/Lib/DateRangeTest.php:292-312 | a range with no end holds 2099-01-31 and not the last second of 2013 |
| `DateRangeScenarios.PeriodInvalidatesRange` | Lib/DateRange.php:294-303 | on a valid three-day range, period() by one day yields three dates and leaves the range invalid |

## Left out

- Date strings are not parsed: a string input is the parser's result, a valid civil date with a time of day and an optional zone. Relative formats ('now', 'today'), overflowing dates such as '2014-02-31' (which PHP rolls into March, test lines 288, 310 and 333) and malformed strings, which make the DateTime constructor throw, are outside the model.
- Timezones are fixed offsets. The tz database, daylight saving time and the exception for an unknown zone name are not modelled.
- Microseconds of DateTime are not modelled. Seconds are the finest unit.
- PHP's empty() on a bound argument is true for null, '', '0', 0 and false. The model treats an absent argument and the timestamp 0 as empty. A string input is never empty: the model's strings are parsed dates, and the empty string, like 'now', is a relative format (the current time) and is left out with the other relative formats; '0' is not a valid date string.
- DateRanges.DateRange.BuildDate: a default time counts as empty only when it is ''. PHP also treats '0' as empty. A piece of a default time is read as PHP reads a leading-numeric string as an integer, with leading blanks and an optional sign, but without the exponent and fraction forms ('1e1' reads as 1, not 10; '1.5' as 1). A non-numeric piece, which PHP refuses as a setTime argument, reads as 0.
- DateRanges.DateRange.BuildDate: is_numeric is decided by the kind of input. Numeric strings such as '1388534400' are not told apart from date strings.
- `in()` and the global `DateRange()` function only forward to the constructor. The getters getStart(), getEnd() and getTimezone() only return the fields. None of them is a separate member.
- Aliasing by callers is not modelled. getStart() and getEnd() return the stored objects, and a caller could mutate them. The model keeps DateTime values, so it captures only the one aliasing effect inside the class itself, the one in period() (see Findings).
- DateRanges.DateRange.AdjustTimezone: requires both bounds and some timezone. The source calls setTimezone on each bound without a check and passes it the range's timezone, so a missing bound or a null zone is a PHP error there, not a result.
- DateRanges.DateRange.Period: requires both bounds and a positive step in seconds. The source's step is any relative format passed to modify(), and a step that does not advance loops forever. With no end, the loop test compares the start with null, which is false, so period() returns an empty iterator and leaves the start alone; with no start, it fails at the clone of null on line 299. The model covers neither.
- DateRanges.DateRange.PeriodDates: same requirements as Period. period() returns an ArrayIterator over the dates, and the model returns the sequence.
- DateRanges.DateRange.Contains: the date argument is required. The source's default 'now' is a relative format, see the first item.
- Integer width is not modelled: timestamps and offsets are unbounded integers.
- The test at lines 170-178 passes a third argument to the constructor, which the constructor does not declare and PHP ignores. The expected -05:00 there is the process default timezone, and `NewYorkToChatham` uses it as the default offset.

## Findings

| source | as written | input that shows it | evidently intended | confidence | as-written member | corrected member |
|---|---|---|---|---|---|---|
| Lib/DateRange.php:294-303 | the loop advances the object returned by getStart(), which is the range's own start, so after period() the start lies one step past the end and the range is backwards | new DateRange('2014-01-01', '2014-01-03') then period('1 day'): three dates are returned, the start becomes 2014-01-04 00:00:00 against an end of 2014-01-03 23:59:59, and valid() turns false | step through a copy of the start and leave the range unchanged | not executed | `DateRanges.DateRange.Period` (with `DateRangeScenarios.PeriodInvalidatesRange`) | `DateRanges.DateRange.PeriodDates` |
