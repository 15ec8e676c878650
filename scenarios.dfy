/**
 * The scenarios of the DateRange test case, replayed against the contracts of the
 * class: each method builds ranges through the public operations and states
 * what the tests expect of them.
 */
module DateRangeScenarios {
  import opened Wrappers
  import opened Calendar
  import opened Moments
  import opened TimeText
  import opened DateRanges

  /** A date-only string such as '2014-01-01', as the parser reads it: midnight, no zone of its own. */
  function Day(y: int, m: int, d: int): DateInput {
    Text(Parsed(Date(y, m, d), 0, None))
  }

  /** A date-time string such as '2014-01-01 11:11:11' with no zone of its own. */
  function At(y: int, m: int, d: int, h: int, mi: int, s: int): DateInput {
    Text(Parsed(Date(y, m, d), h * 3600 + mi * 60 + s, None))
  }

  lemma EndOfDayDefault(p: Parsed, zone: Option<Zone>, defaultOffset: int)
    requires ValidDate(p.date) && p.secs == 0
    ensures NormalizeDate(Text(p), zone, defaultOffset, "23:59:59")
            == DateTime(p.date, SecondsPerDay - 1, ParsedDateTime(p, zone, defaultOffset).offset)
  {
    assert "23:59:59" == ClockText(23, 59, 59);
    DefaultClockTime(p, zone, defaultOffset, 23, 59, 59);
  }

  lemma JanuaryDayNumbers()
    ensures DayNumber(Date(2013, 12, 31)) == 16070
    ensures DayNumber(Date(2014, 1, 1)) == 16071
    ensures DayNumber(Date(2014, 1, 31)) == 16101
    ensures DayNumber(Date(2014, 2, 1)) == 16102
  {
  }

  /** DateRange::in('2014-01-01', '2014-01-31') holds 2014-01-01 and neither 2014-02-01 nor 2013-12-31, at any time of day. */
  method JanuaryContains(h: int, mi: int, s: int, defaultOffset: int)
    returns (first: bool, dayAfter: bool, dayBefore: bool)
    requires 0 <= h < 24 && 0 <= mi < 60 && 0 <= s < 60
    ensures first && !dayAfter && !dayBefore
  {
    var now := ClockText(h, mi, s);
    EndOfDayDefault(Parsed(Date(2014, 1, 31), 0, None), None, defaultOffset);
    var r := DateRange.Create(Some(Day(2014, 1, 1)), Some(Day(2014, 1, 31)), defaultOffset);
    assert r.Success?;
    var range := r.value;
    JanuaryDayNumbers();
    var lo, hi := Instant(range.startDate.value), Instant(range.endDate.value);
    assert lo == 16071 * SecondsPerDay - defaultOffset;
    assert hi == 16101 * SecondsPerDay + SecondsPerDay - 1 - defaultOffset;
    var clock := h * 3600 + mi * 60 + s;
    DefaultClockTime(Parsed(Date(2014, 1, 1), 0, None), None, defaultOffset, h, mi, s);
    DefaultClockTime(Parsed(Date(2014, 2, 1), 0, None), None, defaultOffset, h, mi, s);
    DefaultClockTime(Parsed(Date(2013, 12, 31), 0, None), None, defaultOffset, h, mi, s);
    assert Instant(NormalizeDate(Day(2014, 1, 1), None, defaultOffset, now)) == lo + clock;
    assert Instant(NormalizeDate(Day(2014, 2, 1), None, defaultOffset, now)) == hi + 1 + clock;
    assert Instant(NormalizeDate(Day(2013, 12, 31), None, defaultOffset, now)) == lo - SecondsPerDay + clock;
    first := range.Contains(Day(2014, 1, 1), true, now);
    dayAfter := range.Contains(Day(2014, 2, 1), true, now);
    dayBefore := range.Contains(Day(2013, 12, 31), true, now);
  }

  /** setTimezone only affects later inputs: a start set in New York stays at -05:00 after switching to Nauru. */
  method TimezoneIsNotRetroactive(defaultOffset: int) returns (start: DateTime)
    ensures start == DateTime(Date(2015, 1, 1), 11 * 3600 + 11 * 60 + 11, -5 * 3600)
  {
    var range := new DateRange.Unset(defaultOffset);
    range.SetTimezone(Some(Zone(-5 * 3600)));
    range.SetStart(At(2015, 1, 1, 11, 11, 11));
    range.SetTimezone(Some(Zone(12 * 3600)));
    start := range.startDate.value;
  }

  /** A January range built in New York, re-expressed in Chatham (+13:45): the wall clocks move by 18h45m. */
  method NewYorkToChatham() returns (start: DateTime, end: DateTime)
    ensures start == DateTime(Date(2014, 1, 1), 18 * 3600 + 45 * 60, 13 * 3600 + 45 * 60)
    ensures end == DateTime(Date(2014, 2, 1), 18 * 3600 + 44 * 60 + 59, 13 * 3600 + 45 * 60)
  {
    EndOfDayDefault(Parsed(Date(2014, 1, 31), 0, None), None, -5 * 3600);
    var r := DateRange.Create(Some(Day(2014, 1, 1)), Some(Day(2014, 1, 31)), -5 * 3600);
    assert r.Success?;
    var range := r.value;
    range.AdjustTimezone(Some(Zone(13 * 3600 + 45 * 60)));
    WithOffsetExamples();
    start, end := range.startDate.value, range.endDate.value;
  }

  /** adjustTimes('litle') across a year end: the start moves to 21:00 on New Year's Eve. */
  method LitleYearEnd(defaultOffset: int) returns (start: DateTime, end: DateTime)
    ensures start == DateTime(Date(2013, 12, 31), 21 * 3600, defaultOffset)
    ensures end == DateTime(Date(2014, 1, 31), 20 * 3600 + 59 * 60 + 59, defaultOffset)
  {
    PrevDayExamples();
    EndOfDayDefault(Parsed(Date(2014, 1, 31), 0, None), None, defaultOffset);
    var r := DateRange.Create(Some(Day(2014, 1, 1)), Some(Day(2014, 1, 31)), defaultOffset);
    assert r.Success?;
    r.value.AdjustTimes("litle");
    start, end := r.value.startDate.value, r.value.endDate.value;
  }

  /** adjustTimes('litle') on a range that starts on a leap day: the start moves to 21:00 on February 28. */
  method LitleLeapDay(defaultOffset: int) returns (start: DateTime, end: DateTime)
    ensures start == DateTime(Date(2016, 2, 28), 21 * 3600, defaultOffset)
    ensures end == DateTime(Date(2016, 3, 1), 20 * 3600 + 59 * 60 + 59, defaultOffset)
  {
    PrevDayExamples();
    EndOfDayDefault(Parsed(Date(2016, 3, 1), 0, None), None, defaultOffset);
    var r := DateRange.Create(Some(Day(2016, 2, 29)), Some(Day(2016, 3, 1)), defaultOffset);
    assert r.Success?;
    r.value.AdjustTimes("litle");
    start, end := r.value.startDate.value, r.value.endDate.value;
  }

  /** adjustTimes('litle') ignores the time of day of the bounds it moves. */
  method LitleTimeOfDay(defaultOffset: int) returns (start: DateTime, end: DateTime)
    ensures start == DateTime(Date(2016, 2, 27), 21 * 3600, defaultOffset)
    ensures end == DateTime(Date(2016, 2, 29), 20 * 3600 + 59 * 60 + 59, defaultOffset)
  {
    PrevDayExamples();
    var r := DateRange.Create(Some(At(2016, 2, 28, 11, 11, 11)), Some(At(2016, 2, 29, 23, 59, 59)), defaultOffset);
    assert r.Success?;
    r.value.AdjustTimes("litle");
    start, end := r.value.startDate.value, r.value.endDate.value;
  }

  /** adjustTimes() with no mode snaps 11:11:11 back to midnight and 07:08:09 forward to 23:59:59, on the same dates. */
  method MidnightAdjustment(defaultOffset: int) returns (start: DateTime, end: DateTime)
    ensures start == DateTime(Date(2014, 1, 1), 0, defaultOffset)
    ensures end == DateTime(Date(2014, 1, 31), SecondsPerDay - 1, defaultOffset)
  {
    var r := DateRange.Create(Some(At(2014, 1, 1, 11, 11, 11)), Some(At(2014, 1, 31, 7, 8, 9)), defaultOffset);
    assert r.Success?;
    r.value.AdjustTimes("");
    start, end := r.value.startDate.value, r.value.endDate.value;
  }

  /** valid() on a backwards, a forwards and a one-day range; the constructor refuses the backwards one. */
  method Validity(defaultOffset: int)
    returns (backwards: bool, forwards: bool, oneDay: bool, refused: bool, openStart: bool, openEnd: bool)
    ensures !backwards && forwards && oneDay && refused && openStart && openEnd
  {
    EndOfDayDefault(Parsed(Date(2014, 1, 1), 0, None), None, defaultOffset);
    EndOfDayDefault(Parsed(Date(2014, 1, 31), 0, None), None, defaultOffset);
    var range := new DateRange.Unset(defaultOffset);
    range.SetStart(Day(2014, 1, 31));
    range.SetEnd(Day(2014, 1, 1));
    backwards := range.Valid();
    range.SetStart(Day(2014, 1, 1));
    range.SetEnd(Day(2014, 1, 31));
    forwards := range.Valid();
    range.SetStart(Day(2014, 1, 1));
    range.SetEnd(Day(2014, 1, 1));
    oneDay := range.Valid();
    var r := DateRange.Create(Some(Day(2014, 1, 31)), Some(Day(2014, 1, 1)), defaultOffset);
    refused := r.Failure?;
    r := DateRange.Create(None, Some(Day(2014, 1, 31)), defaultOffset);
    openStart := r.Success? && r.value.Valid();
    r := DateRange.Create(Some(Day(2014, 1, 1)), None, defaultOffset);
    openEnd := r.Success? && r.value.Valid();
  }

  /** The range DateRange('2014-01-01', '2014-01-31') after adjustTimes(): 00:00:00 on the 1st to 23:59:59 on the 31st. */
  method AdjustedJanuary(defaultOffset: int) returns (range: DateRange)
    ensures fresh(range) && range.BoundsWellFormed() && range.timezone == None
    ensures range.defaultOffset == defaultOffset
    ensures range.startDate == Some(DateTime(Date(2014, 1, 1), 0, defaultOffset))
    ensures range.endDate == Some(DateTime(Date(2014, 1, 31), SecondsPerDay - 1, defaultOffset))
  {
    EndOfDayDefault(Parsed(Date(2014, 1, 31), 0, None), None, defaultOffset);
    var r := DateRange.Create(Some(Day(2014, 1, 1)), Some(Day(2014, 1, 31)), defaultOffset);
    assert r.Success?;
    range := r.value;
    range.AdjustTimes("midnight");
  }

  /**
   * '2014-01-01' is inside January even exclusively, because it is midnight
   * and takes the current time of day, except at the stroke of midnight.
   */
  method JanuaryStartEdge(h: int, mi: int, s: int, defaultOffset: int) returns (startExclusive: bool)
    requires 0 <= h < 24 && 0 <= mi < 60 && 0 <= s < 60
    ensures startExclusive <==> !(h == 0 && mi == 0 && s == 0)
  {
    var now := ClockText(h, mi, s);
    var range := AdjustedJanuary(defaultOffset);
    JanuaryDayNumbers();
    var lo, hi := Instant(range.startDate.value), Instant(range.endDate.value);
    assert lo == 16071 * SecondsPerDay - defaultOffset;
    assert hi == 16101 * SecondsPerDay + SecondsPerDay - 1 - defaultOffset;
    DefaultClockTime(Parsed(Date(2014, 1, 1), 0, None), None, defaultOffset, h, mi, s);
    var clock := h * 3600 + mi * 60 + s;
    assert clock == 0 <==> h == 0 && mi == 0 && s == 0;
    assert Instant(NormalizeDate(Day(2014, 1, 1), None, defaultOffset, now)) == lo + clock;
    startExclusive := range.Contains(Day(2014, 1, 1), false, now);
    assert startExclusive == (lo < lo + clock);
  }

  /** '2014-01-31 23:59:59' is inside January only inclusively. */
  method JanuaryLastSecond(h: int, mi: int, s: int, defaultOffset: int)
    returns (endInclusive: bool, endExclusive: bool)
    requires 0 <= h < 24 && 0 <= mi < 60 && 0 <= s < 60
    ensures endInclusive && !endExclusive
  {
    var now := ClockText(h, mi, s);
    var range := AdjustedJanuary(defaultOffset);
    JanuaryDayNumbers();
    var hi := Instant(range.endDate.value);
    assert Instant(range.startDate.value) == 16071 * SecondsPerDay - defaultOffset;
    assert hi == 16101 * SecondsPerDay + SecondsPerDay - 1 - defaultOffset;
    var last := At(2014, 1, 31, 23, 59, 59);
    assert Instant(NormalizeDate(last, None, defaultOffset, now)) == hi;
    endInclusive := range.Contains(last, true, now);
    assert endInclusive;
    endExclusive := range.Contains(last, false, now);
  }

  /** '2014-02-01 00:00:00' is outside January, inclusively or not, whatever the time of day. */
  method FebruaryMidnight(h: int, mi: int, s: int, defaultOffset: int)
    returns (inclusive: bool, exclusive: bool)
    requires 0 <= h < 24 && 0 <= mi < 60 && 0 <= s < 60
    ensures !inclusive && !exclusive
  {
    var now := ClockText(h, mi, s);
    var range := AdjustedJanuary(defaultOffset);
    JanuaryDayNumbers();
    var hi := Instant(range.endDate.value);
    assert hi == 16101 * SecondsPerDay + SecondsPerDay - 1 - defaultOffset;
    DefaultClockTime(Parsed(Date(2014, 2, 1), 0, None), None, defaultOffset, h, mi, s);
    var clock := h * 3600 + mi * 60 + s;
    var t := Instant(NormalizeDate(Day(2014, 2, 1), None, defaultOffset, now));
    assert t == hi + 1 + clock;
    inclusive := range.Contains(Day(2014, 2, 1), true, now);
    exclusive := range.Contains(Day(2014, 2, 1), false, now);
    ExclusiveWithinInclusive(t, InstantOf(range.startDate), InstantOf(range.endDate));
  }

  /** buildDate('2014-01-01', '-1:00:00'): the hour -1 rolls the date back to 23:00:00 on the day before. */
  lemma NegativeDefaultHour(defaultOffset: int)
    ensures NormalizeDate(Day(2014, 1, 1), None, defaultOffset, "-1:00:00")
            == DateTime(Date(2013, 12, 31), 23 * 3600, defaultOffset)
  {
    NegativeHourFields();
    JanuaryDayNumbers();
    var p := Parsed(Date(2014, 1, 1), 0, None);
    var r := NormalizeDate(Day(2014, 1, 1), None, defaultOffset, "-1:00:00");
    assert r == SetTime(ParsedDateTime(p, None, defaultOffset), -1, 0, 0);
    var expected := DateTime(Date(2013, 12, 31), 23 * 3600, defaultOffset);
    assert Instant(r) == Instant(expected);
    InstantDetermines(r, expected);
  }

  /** An open-ended range holds every date from its start on, however late. */
  method OpenEnded(h: int, mi: int, s: int, defaultOffset: int) returns (farFuture: bool, dayBefore: bool)
    requires 0 <= h < 24 && 0 <= mi < 60 && 0 <= s < 60
    ensures farFuture && !dayBefore
  {
    var now := ClockText(h, mi, s);
    var r := DateRange.Create(Some(Day(2014, 1, 1)), None, defaultOffset);
    assert r.Success?;
    var range := r.value;
    range.AdjustTimes("");
    assert range.startDate.value == DateTime(Date(2014, 1, 1), 0, defaultOffset);
    JanuaryDayNumbers();
    var lo := Instant(range.startDate.value);
    assert lo == 16071 * SecondsPerDay - defaultOffset;
    DefaultClockTime(Parsed(Date(2099, 1, 31), 0, None), None, defaultOffset, h, mi, s);
    assert DayNumber(Date(2099, 1, 31)) == 47147;
    assert Instant(NormalizeDate(Day(2099, 1, 31), None, defaultOffset, now)) >= 47147 * SecondsPerDay - defaultOffset;
    assert Instant(NormalizeDate(At(2013, 12, 31, 23, 59, 59), None, defaultOffset, now)) == lo - 1;
    farFuture := range.Contains(Day(2099, 1, 31), true, now);
    dayBefore := range.Contains(At(2013, 12, 31, 23, 59, 59), false, now);
  }

  /** period() on a valid three-day range yields three days and leaves the range itself no longer valid. */
  method PeriodInvalidatesRange(defaultOffset: int)
    returns (validBefore: bool, steps: nat, validAfter: bool, intended: seq<DateTime>)
    ensures validBefore && steps == 3 && !validAfter
    ensures |intended| == 3 && intended[0] == DateTime(Date(2014, 1, 1), 0, defaultOffset)
  {
    EndOfDayDefault(Parsed(Date(2014, 1, 3), 0, None), None, defaultOffset);
    var r := DateRange.Create(Some(Day(2014, 1, 1)), Some(Day(2014, 1, 3)), defaultOffset);
    assert r.Success?;
    var range := r.value;
    validBefore := range.Valid();
    intended := range.PeriodDates(SecondsPerDay);
    var first := range.startDate.value;
    PeriodShape(intended, first, range.endDate.value, SecondsPerDay);
    var dates := range.Period(SecondsPerDay);
    PeriodUnique(dates, intended, first, range.endDate.value, SecondsPerDay);
    steps := |dates|;
    assert 3 * SecondsPerDay > Instant(range.endDate.value) - Instant(first) >= 2 * SecondsPerDay;
    validAfter := range.Valid();
  }
}
