/**
 * The DateRange class: an optional start, an optional end and an optional
 * timezone, with fluent setters that update them in place, two ways of snapping
 * the bounds to a day's edges, validity, inclusive or exclusive containment, and
 * stepping through the range.
 */
module DateRanges {
  import opened Wrappers
  import opened Calendar
  import opened Moments
  import opened TimeText

  /** A timezone, reduced to its fixed UTC offset in seconds. */
  datatype Zone = Zone(offset: int)

  /**
   * What PHP's date parser makes of a date or date-time string: the civil date,
   * the time of day (midnight when the string gives none) and the zone the string
   * names, if it names one.
   */
  datatype Parsed = Parsed(date: Date, secs: int, zone: Option<Zone>)

  /** The three kinds of date buildDate accepts. */
  datatype DateInput =
    | Object(dt: DateTime)      // a DateTime instance
    | Epoch(timestamp: int)     // a numeric value, read as a Unix timestamp
    | Text(parsed: Parsed)      // a string, as the parser read it

  /** InvalidArgumentException('Start date must be less or equal to end date'). */
  datatype RangeError = InvalidRange

  /** What the inputs satisfy: DateTime objects are well formed and the parser yields real dates and times. */
  predicate InputOk(d: DateInput) {
    match d
    case Object(t) => WellFormed(t)
    case Epoch(_) => true
    case Text(p) => ValidDate(p.date) && 0 <= p.secs < SecondsPerDay
  }

  /** PHP's empty() on a present argument: the timestamp 0 counts as empty. */
  predicate IsEmptyInput(d: DateInput) {
    d == Epoch(0)
  }

  /** The offset a new DateTime gets: that of the range's timezone, or the process default when none is set. */
  function ZoneOffset(zone: Option<Zone>, defaultOffset: int): int {
    if zone.Some? then zone.value.offset else defaultOffset
  }

  /** new DateTime($string, $zone): a zone named in the string wins over the one passed in. */
  function ParsedDateTime(p: Parsed, zone: Option<Zone>, defaultOffset: int): DateTime {
    DateTime(p.date, p.secs, if p.zone.Some? then p.zone.value.offset else ZoneOffset(zone, defaultOffset))
  }

  /** A default time is applied unless it is empty or '00:00:00'. */
  predicate AppliesDefault(defaultTime: string) {
    defaultTime != "" && defaultTime != "00:00:00"
  }

  /**
   * buildDate(date, defaultTime) in the zone `zone`: a DateTime is copied, a
   * timestamp is placed in the zone, and a parsed string that came out at exactly
   * midnight gets the default time, split at ':' with missing fields read as '00'.
   */
  function NormalizeDate(d: DateInput, zone: Option<Zone>, defaultOffset: int, defaultTime: string): (r: DateTime)
    requires InputOk(d)
    ensures WellFormed(r)
  {
    match d
    case Object(t) => t
    case Epoch(ts) => FromTimestamp(ts, ZoneOffset(zone, defaultOffset))
    case Text(p) =>
      var t := ParsedDateTime(p, zone, defaultOffset);
      if !AppliesDefault(defaultTime) || t.secs != 0 then t
      else
        var parts := Explode(defaultTime);
        SetTime(t, TimeField(parts, 0), TimeField(parts, 1), TimeField(parts, 2))
  }

  /** The instant of a bound, when it is set. */
  function InstantOf(b: Option<DateTime>): Option<int>
    requires b.Some? ==> WellFormed(b.value)
  {
    if b.Some? then Some(Instant(b.value)) else None
  }

  /** valid() on instants: an unset bound never makes a range backwards. */
  predicate Ordered(lo: Option<int>, hi: Option<int>) {
    lo.None? || hi.None? || lo.value <= hi.value
  }

  /** contains() on instants: `t` passes the end check and the start check; an unset bound never rejects. */
  predicate Within(t: int, lo: Option<int>, hi: Option<int>, inclusive: bool) {
    (hi.Some? ==> if inclusive then t <= hi.value else t < hi.value)
    && (lo.Some? ==> if inclusive then lo.value <= t else lo.value < t)
  }

  /** Start of a 'litle' business day: 21:00:00 on the calendar day before. */
  function LitleStart(t: DateTime): (r: DateTime)
    requires WellFormed(t)
    ensures WellFormed(r) && r.offset == t.offset
    ensures r.date == PrevDay(t.date) && r.secs == 21 * 3600
    ensures Instant(r) == DayStart(t) - 3 * 3600
  {
    SetTime(SubDay(t), 21, 0, 0)
  }

  /** End of a 'litle' business day: 20:59:59 on the same calendar day. */
  function LitleEnd(t: DateTime): (r: DateTime)
    requires WellFormed(t)
    ensures WellFormed(r) && r.offset == t.offset
    ensures r.date == t.date && r.secs == 20 * 3600 + 59 * 60 + 59
    ensures Instant(r) == DayStart(t) + 21 * 3600 - 1
  {
    SetTime(t, 20, 59, 59)
  }

  /** Start of a midnight-to-midnight day: 00:00:00 on the same calendar day. */
  function MidnightStart(t: DateTime): (r: DateTime)
    requires WellFormed(t)
    ensures WellFormed(r) && r.offset == t.offset
    ensures r.date == t.date && r.secs == 0
    ensures Instant(r) == DayStart(t)
  {
    SetTime(t, 0, 0, 0)
  }

  /** End of a midnight-to-midnight day: 23:59:59 on the same calendar day. */
  function MidnightEnd(t: DateTime): (r: DateTime)
    requires WellFormed(t)
    ensures WellFormed(r) && r.offset == t.offset
    ensures r.date == t.date && r.secs == SecondsPerDay - 1
    ensures Instant(r) == DayStart(t) + SecondsPerDay - 1
  {
    SetTime(t, 23, 59, 59)
  }

  /** What a bound becomes when the constructor receives `arg`: unset when absent or empty, else built with `defaultTime`. */
  function InitialBound(arg: Option<DateInput>, defaultOffset: int, defaultTime: string): (b: Option<DateTime>)
    requires arg.Some? ==> InputOk(arg.value)
    ensures b.Some? ==> WellFormed(b.value)
  {
    if arg.Some? && !IsEmptyInput(arg.value) then Some(NormalizeDate(arg.value, None, defaultOffset, defaultTime))
    else None
  }

  /**
   * The steps of period(step) from `s` to `e`: `s`, then `s` advanced by `step`
   * again and again, every one of them at or before `e`, and the next one past `e`.
   */
  ghost predicate IsPeriod(dates: seq<DateTime>, s: DateTime, e: DateTime, step: int)
    requires WellFormed(s) && WellFormed(e)
  {
    StepsWithin(dates, s, e, step) && Instant(s) + |dates| * step > Instant(e)
  }

  /** Each element is the start advanced by a whole number of steps, in order, and none lies after the end. */
  ghost predicate StepsWithin(dates: seq<DateTime>, s: DateTime, e: DateTime, step: int)
    requires WellFormed(s) && WellFormed(e)
  {
    forall i :: 0 <= i < |dates| ==> dates[i] == AddSeconds(s, i * step) && Instant(dates[i]) <= Instant(e)
  }

  /** One more step of the loop of period(): the next date joins the steps, and advancing it gives the step after. */
  lemma StepsExtend(dates: seq<DateTime>, s: DateTime, e: DateTime, step: int, next: DateTime)
    requires WellFormed(s) && WellFormed(e) && StepsWithin(dates, s, e, step)
    requires next == AddSeconds(s, |dates| * step) && Instant(next) <= Instant(e)
    ensures StepsWithin(dates + [next], s, e, step)
    ensures AddSeconds(next, step) == AddSeconds(s, (|dates| + 1) * step)
  {
    var n := |dates|;
    var longer := dates + [next];
    forall i | 0 <= i < |longer|
      ensures longer[i] == AddSeconds(s, i * step) && Instant(longer[i]) <= Instant(e)
    {
      if i < n {
        assert longer[i] == dates[i];
      }
    }
    StepAfter(s, n, step);
  }

  /** Advancing the n-th step by one more step gives step n + 1. */
  lemma StepAfter(s: DateTime, n: int, step: int)
    requires WellFormed(s)
    ensures AddSeconds(AddSeconds(s, n * step), step) == AddSeconds(s, (n + 1) * step)
  {
    var x, y := AddSeconds(AddSeconds(s, n * step), step), AddSeconds(s, (n + 1) * step);
    assert Instant(x) == Instant(y) by {
      assert n * step + step == (n + 1) * step;
    }
    InstantDetermines(x, y);
  }

  class DateRange {
    var startDate: Option<DateTime>
    var endDate: Option<DateTime>
    var timezone: Option<Zone>
    /** The offset of the process-wide default timezone, used while no timezone is set. */
    const defaultOffset: int

    /** The stored bounds are well-formed DateTime values. */
    ghost predicate BoundsWellFormed()
      reads this
    {
      (startDate.Some? ==> WellFormed(startDate.value)) && (endDate.Some? ==> WellFormed(endDate.value))
    }

    /** A range before the constructor's body runs: no bounds, no timezone. */
    constructor Unset(defaultOffset: int)
      ensures startDate == None && endDate == None && timezone == None
      ensures this.defaultOffset == defaultOffset
      ensures BoundsWellFormed()
    {
      this.defaultOffset := defaultOffset;
      startDate, endDate, timezone := None, None, None;
    }

    /** new DateRange(start, end): sets the bounds that are given and not empty, then refuses a backwards range. */
    static method Create(start: Option<DateInput>, end: Option<DateInput>, defaultOffset: int)
      returns (r: Result<DateRange, RangeError>)
      requires start.Some? ==> InputOk(start.value)
      requires end.Some? ==> InputOk(end.value)
      ensures var s, e := InitialBound(start, defaultOffset, "00:00:00"), InitialBound(end, defaultOffset, "23:59:59");
              && (r.Success? <==> Ordered(InstantOf(s), InstantOf(e)))
              && (r.Success? ==> fresh(r.value) && r.value.BoundsWellFormed()
                                 && r.value.startDate == s && r.value.endDate == e
                                 && r.value.timezone == None && r.value.defaultOffset == defaultOffset)
    {
      var range := new DateRange.Unset(defaultOffset);
      if start.Some? && !IsEmptyInput(start.value) {
        range.SetStart(start.value);
      }
      if end.Some? && !IsEmptyInput(end.value) {
        range.SetEnd(end.value);
      }
      if !range.Valid() {
        return Failure(InvalidRange);
      }
      return Success(range);
    }

    /** buildDate(date, defaultTime), in the range's current timezone. */
    method BuildDate(date: DateInput, defaultTime: string) returns (r: DateTime)
      requires InputOk(date)
      ensures r == NormalizeDate(date, timezone, defaultOffset, defaultTime)
    {
      match date {
        case Object(t) =>
          return t;
        case Epoch(ts) =>
          return FromTimestamp(ts, ZoneOffset(timezone, defaultOffset));
        case Text(p) =>
          r := ParsedDateTime(p, timezone, defaultOffset);
          if defaultTime == "" || defaultTime == "00:00:00" {
            return;
          }
          if r.secs == 0 {
            var timeParts := Explode(defaultTime);
            ghost var exploded := timeParts;
            timeParts := PadTimeParts(timeParts);
            assert TwoDigits(0) == "00";
            TwoDigitsValue(0);
            assert forall i :: 0 <= i < 3 ==> IntOfString(timeParts[i]) == TimeField(exploded, i);
            r := SetTime(r, IntOfString(timeParts[0]), IntOfString(timeParts[1]), IntOfString(timeParts[2]));
          }
      }
    }

    /** setStart(date): the start becomes buildDate(date, '00:00:00'); nothing else changes. */
    method SetStart(date: DateInput)
      requires BoundsWellFormed() && InputOk(date)
      modifies this
      ensures BoundsWellFormed()
      ensures startDate == Some(NormalizeDate(date, timezone, defaultOffset, "00:00:00"))
      ensures endDate == old(endDate) && timezone == old(timezone)
    {
      var d := BuildDate(date, "00:00:00");
      startDate := Some(d);
    }

    /** setEnd(date): the end becomes buildDate(date, '23:59:59'); nothing else changes. */
    method SetEnd(date: DateInput)
      requires BoundsWellFormed() && InputOk(date)
      modifies this
      ensures BoundsWellFormed()
      ensures endDate == Some(NormalizeDate(date, timezone, defaultOffset, "23:59:59"))
      ensures startDate == old(startDate) && timezone == old(timezone)
    {
      var d := BuildDate(date, "23:59:59");
      endDate := Some(d);
    }

    /** setTimezone(tz): replaces the timezone (None clears it); the stored bounds keep their zone. */
    method SetTimezone(tz: Option<Zone>)
      modifies this
      ensures timezone == tz
      ensures startDate == old(startDate) && endDate == old(endDate)
    {
      timezone := tz;
    }

    /** adjustTimezone(tz): sets the timezone when one is given, then reads both bounds on its wall clock. */
    method AdjustTimezone(tz: Option<Zone>)
      requires BoundsWellFormed() && startDate.Some? && endDate.Some?
      requires tz.Some? || timezone.Some?
      modifies this
      ensures BoundsWellFormed()
      ensures timezone == if tz.Some? then tz else old(timezone)
      ensures startDate == Some(WithOffset(old(startDate).value, timezone.value.offset))
      ensures endDate == Some(WithOffset(old(endDate).value, timezone.value.offset))
    {
      if tz.Some? {
        SetTimezone(tz);
      }
      var start := startDate.value;
      start := WithOffset(start, timezone.value.offset);
      SetStart(Object(start));
      var end := endDate.value;
      end := WithOffset(end, timezone.value.offset);
      SetEnd(Object(end));
    }

    /**
     * adjustTimes(how): 'litle' moves the start to 21:00:00 the day before and
     * the end to 20:59:59; anything else moves the start to 00:00:00 and the end
     * to 23:59:59. An unset bound stays unset.
     */
    method AdjustTimes(how: string)
      requires BoundsWellFormed()
      modifies this
      ensures BoundsWellFormed() && timezone == old(timezone)
      ensures how == "litle" ==>
                startDate == (if old(startDate).Some? then Some(LitleStart(old(startDate).value)) else None)
                && endDate == (if old(endDate).Some? then Some(LitleEnd(old(endDate).value)) else None)
      ensures how != "litle" ==>
                startDate == (if old(startDate).Some? then Some(MidnightStart(old(startDate).value)) else None)
                && endDate == (if old(endDate).Some? then Some(MidnightEnd(old(endDate).value)) else None)
    {
      if how == "litle" {
        if startDate.Some? {
          var start := startDate.value;
          start := SubDay(start);
          start := SetTime(start, 21, 0, 0);
          SetStart(Object(start));
        }
        if endDate.Some? {
          var end := endDate.value;
          end := SetTime(end, 20, 59, 59);
          SetEnd(Object(end));
        }
        return;
      }
      if startDate.Some? {
        var start := startDate.value;
        start := SetTime(start, 0, 0, 0);
        SetStart(Object(start));
      }
      if endDate.Some? {
        var end := endDate.value;
        end := SetTime(end, 23, 59, 59);
        SetEnd(Object(end));
      }
    }

    /**
     * period(step), as written: steps from the start to the end, advancing the
     * stored start object itself, which is therefore left one step past the end.
     */
    method Period(step: int) returns (dates: seq<DateTime>)
      requires BoundsWellFormed() && startDate.Some? && endDate.Some? && step > 0
      modifies this
      ensures BoundsWellFormed()
      ensures endDate == old(endDate) && timezone == old(timezone)
      ensures IsPeriod(dates, old(startDate).value, old(endDate).value, step)
      ensures startDate == Some(AddSeconds(old(startDate).value, |dates| * step))
    {
      dates := [];
      var end := endDate.value;
      ghost var first := startDate.value;
      AddZeroSeconds(first);
      while Instant(startDate.value) <= Instant(end)
        invariant startDate.Some? && WellFormed(startDate.value)
        invariant endDate == old(endDate) && timezone == old(timezone)
        invariant startDate.value == AddSeconds(first, |dates| * step)
        invariant StepsWithin(dates, first, end, step)
        decreases Instant(end) - Instant(startDate.value)
      {
        StepsExtend(dates, first, end, step, startDate.value);
        dates := dates + [startDate.value];
        startDate := Some(AddSeconds(startDate.value, step));
      }
    }

    /** period(step) as intended: the same steps, computed on a copy of the start, leaving the range unchanged. */
    method PeriodDates(step: int) returns (dates: seq<DateTime>)
      requires BoundsWellFormed() && startDate.Some? && endDate.Some? && step > 0
      ensures IsPeriod(dates, startDate.value, endDate.value, step)
    {
      dates := [];
      var first, end := startDate.value, endDate.value;
      var next := first;
      AddZeroSeconds(first);
      while Instant(next) <= Instant(end)
        invariant WellFormed(next)
        invariant next == AddSeconds(first, |dates| * step)
        invariant StepsWithin(dates, first, end, step)
        decreases Instant(end) - Instant(next)
      {
        StepsExtend(dates, first, end, step, next);
        dates := dates + [next];
        next := AddSeconds(next, step);
      }
    }

    /** valid(): true when a bound is unset, otherwise whether the start is at or before the end. */
    predicate Valid()
      requires BoundsWellFormed()
      reads this
      ensures Valid() <==> exists t :: Within(t, InstantOf(startDate), InstantOf(endDate), true)
    {
      OrderedIffNonEmpty(InstantOf(startDate), InstantOf(endDate));
      if startDate.None? then true
      else if endDate.None? then true
      else Instant(startDate.value) <= Instant(endDate.value)
    }

    /**
     * contains(date, inclusive), with `now` the wall clock as date('H:i:s') writes
     * it: the date is built with the current time as default time, then checked
     * against the end and against the start.
     */
    method Contains(date: DateInput, inclusive: bool, now: string) returns (b: bool)
      requires BoundsWellFormed() && InputOk(date)
      ensures b == Within(Instant(NormalizeDate(date, timezone, defaultOffset, now)),
                          InstantOf(startDate), InstantOf(endDate), inclusive)
    {
      var d := BuildDate(date, now);
      if endDate.Some? {
        if inclusive {
          if !(Instant(d) <= Instant(endDate.value)) {
            return false;
          }
        } else {
          if !(Instant(d) < Instant(endDate.value)) {
            return false;
          }
        }
      }
      if startDate.Some? {
        if inclusive {
          if !(Instant(startDate.value) <= Instant(d)) {
            return false;
          }
        } else {
          if !(Instant(startDate.value) < Instant(d)) {
            return false;
          }
        }
      }
      return true;
    }
  }

  // ---------------------------------------------------------------- lemmas

  /** A range is ordered exactly when some instant lies in it, bounds included. */
  lemma OrderedIffNonEmpty(lo: Option<int>, hi: Option<int>)
    ensures Ordered(lo, hi) <==> exists t :: Within(t, lo, hi, true)
  {
    if Ordered(lo, hi) {
      var t := if lo.Some? then lo.value else if hi.Some? then hi.value else 0;
      assert Within(t, lo, hi, true);
    }
  }

  /** With both bounds set, containment is the closed or the open interval between them. */
  lemma WithinInterval(t: int, s: int, e: int)
    ensures Within(t, Some(s), Some(e), true) <==> s <= t <= e
    ensures Within(t, Some(s), Some(e), false) <==> s < t < e
  {
  }

  /** In an ordered range both bounds are inside inclusively and outside exclusively. */
  lemma BoundsAreEdges(s: int, e: int)
    requires s <= e
    ensures Within(s, Some(s), Some(e), true) && Within(e, Some(s), Some(e), true)
    ensures !Within(s, Some(s), Some(e), false) && !Within(e, Some(s), Some(e), false)
  {
  }

  /** An unset bound never rejects: dropping a bound only lets more instants in. */
  lemma UnsetBoundNeverRejects(t: int, lo: Option<int>, hi: Option<int>, inclusive: bool)
    ensures Within(t, None, None, inclusive)
    ensures Within(t, lo, hi, inclusive) ==> Within(t, None, hi, inclusive) && Within(t, lo, None, inclusive)
  {
  }

  /** What is inside exclusively is inside inclusively. */
  lemma ExclusiveWithinInclusive(t: int, lo: Option<int>, hi: Option<int>)
    ensures Within(t, lo, hi, false) ==> Within(t, lo, hi, true)
  {
  }

  /**
   * The default-time rule: a parsed string keeps its own time unless that time is
   * midnight and the default time is neither empty nor '00:00:00'.
   */
  lemma DefaultTimeOnlyAtMidnight(p: Parsed, zone: Option<Zone>, defaultOffset: int, defaultTime: string)
    requires ValidDate(p.date) && 0 <= p.secs < SecondsPerDay
    ensures NormalizeDate(Text(p), zone, defaultOffset, defaultTime) != ParsedDateTime(p, zone, defaultOffset)
            ==> p.secs == 0 && AppliesDefault(defaultTime)
    ensures p.secs != 0 ==> NormalizeDate(Text(p), zone, defaultOffset, defaultTime) == ParsedDateTime(p, zone, defaultOffset)
    ensures NormalizeDate(Text(p), zone, defaultOffset, "00:00:00") == ParsedDateTime(p, zone, defaultOffset)
    ensures NormalizeDate(Text(p), zone, defaultOffset, "") == ParsedDateTime(p, zone, defaultOffset)
  {
  }

  /** A midnight parse with a clock-time default takes that clock time, on the parsed date and in the parsed zone. */
  lemma DefaultClockTime(p: Parsed, zone: Option<Zone>, defaultOffset: int, h: int, mi: int, s: int)
    requires ValidDate(p.date) && p.secs == 0
    requires 0 <= h < 24 && 0 <= mi < 60 && 0 <= s < 60
    ensures NormalizeDate(Text(p), zone, defaultOffset, ClockText(h, mi, s))
            == DateTime(p.date, h * 3600 + mi * 60 + s, ParsedDateTime(p, zone, defaultOffset).offset)
  {
    ClockTextFields(h, mi, s);
  }

  /**
   * The converse for a midnight parse: a default time that is applied and whose
   * fields fall strictly inside the day does change the parsed time.
   */
  lemma DefaultTimeApplies(p: Parsed, zone: Option<Zone>, defaultOffset: int, defaultTime: string)
    requires ValidDate(p.date) && p.secs == 0 && AppliesDefault(defaultTime)
    requires var parts := Explode(defaultTime);
             0 < TimeField(parts, 0) * 3600 + TimeField(parts, 1) * 60 + TimeField(parts, 2) < SecondsPerDay
    ensures NormalizeDate(Text(p), zone, defaultOffset, defaultTime) != ParsedDateTime(p, zone, defaultOffset)
    ensures NormalizeDate(Text(p), zone, defaultOffset, defaultTime).date == p.date
  {
  }

  /** A zone named in the string wins: the range's timezone then plays no part in what buildDate returns. */
  lemma StringZoneWins(p: Parsed, z1: Option<Zone>, z2: Option<Zone>, defaultOffset: int, defaultTime: string)
    requires ValidDate(p.date) && 0 <= p.secs < SecondsPerDay
    ensures NormalizeDate(Text(p), z1, defaultOffset, defaultTime).offset
            == if p.zone.Some? then p.zone.value.offset else ZoneOffset(z1, defaultOffset)
    ensures p.zone.Some? ==> NormalizeDate(Text(p), z1, defaultOffset, defaultTime)
                             == NormalizeDate(Text(p), z2, defaultOffset, defaultTime)
  {
  }

  /** The constructor leaves a bound unset exactly when its argument is absent or the timestamp 0. */
  lemma EmptyArgumentUnset(arg: Option<DateInput>, defaultOffset: int, defaultTime: string)
    requires arg.Some? ==> InputOk(arg.value)
    ensures InitialBound(arg, defaultOffset, defaultTime).None? <==> arg.None? || arg.value == Epoch(0)
    ensures arg.Some? && arg.value != Epoch(0) ==>
              InitialBound(arg, defaultOffset, defaultTime) == Some(NormalizeDate(arg.value, None, defaultOffset, defaultTime))
  {
  }

  /** A DateTime or a timestamp never takes the default time; a timestamp lands on its instant in the current zone. */
  lemma NoDefaultForObjectsAndTimestamps(d: DateInput, zone: Option<Zone>, defaultOffset: int, t1: string, t2: string)
    requires InputOk(d) && !d.Text?
    ensures NormalizeDate(d, zone, defaultOffset, t1) == NormalizeDate(d, zone, defaultOffset, t2)
    ensures d.Object? ==> NormalizeDate(d, zone, defaultOffset, t1) == d.dt
    ensures d.Epoch? ==> Instant(NormalizeDate(d, zone, defaultOffset, t1)) == d.timestamp
                         && NormalizeDate(d, zone, defaultOffset, t1).offset == ZoneOffset(zone, defaultOffset)
  {
  }

  /** A 'litle' day on one calendar date runs from 21:00:00 the evening before to 20:59:59: one day less a second. */
  lemma LitleDayLength(s: DateTime, e: DateTime)
    requires WellFormed(s) && WellFormed(e) && s.date == e.date && s.offset == e.offset
    ensures Instant(LitleEnd(e)) - Instant(LitleStart(s)) == SecondsPerDay - 1
    ensures Instant(MidnightEnd(e)) - Instant(MidnightStart(s)) == SecondsPerDay - 1
  {
  }

  /** Snapping twice is snapping once; a 'litle' end is a midnight end moved back three hours. */
  lemma SnapIdempotent(t: DateTime)
    requires WellFormed(t)
    ensures MidnightStart(MidnightStart(t)) == MidnightStart(t)
    ensures MidnightEnd(MidnightEnd(t)) == MidnightEnd(t)
    ensures LitleEnd(LitleEnd(t)) == LitleEnd(t)
    ensures Instant(LitleEnd(t)) == Instant(MidnightEnd(t)) - 3 * 3600
  {
  }

  /** The 'litle' moves from the class's test case (DateRangeTest.php), across a year end and a leap day. */
  lemma LitleExamples()
    ensures LitleStart(DateTime(Date(2014, 1, 1), 0, 0)) == DateTime(Date(2013, 12, 31), 21 * 3600, 0)
    ensures LitleStart(DateTime(Date(2016, 2, 29), 0, 0)) == DateTime(Date(2016, 2, 28), 21 * 3600, 0)
    ensures LitleStart(DateTime(Date(2016, 3, 1), 0, 0)) == DateTime(Date(2016, 2, 29), 21 * 3600, 0)
    ensures LitleStart(DateTime(Date(2016, 2, 28), 11 * 3600 + 11 * 60 + 11, 0))
            == DateTime(Date(2016, 2, 27), 21 * 3600, 0)
    ensures LitleEnd(DateTime(Date(2016, 2, 29), SecondsPerDay - 1, 0))
            == DateTime(Date(2016, 2, 29), 20 * 3600 + 59 * 60 + 59, 0)
  {
    PrevDayExamples();
  }

  /** The steps of a period are unique: two step sequences for the same bounds and step are equal. */
  lemma PeriodUnique(d1: seq<DateTime>, d2: seq<DateTime>, s: DateTime, e: DateTime, step: int)
    requires WellFormed(s) && WellFormed(e) && step > 0
    requires IsPeriod(d1, s, e, step) && IsPeriod(d2, s, e, step)
    ensures d1 == d2
  {
    if |d1| < |d2| {
      PeriodStepInRange(d2, s, e, step, |d1|);
      assert false;
    } else if |d2| < |d1| {
      PeriodStepInRange(d1, s, e, step, |d2|);
      assert false;
    }
  }

  lemma PeriodStepInRange(dates: seq<DateTime>, s: DateTime, e: DateTime, step: int, k: int)
    requires WellFormed(s) && WellFormed(e)
    requires IsPeriod(dates, s, e, step) && 0 <= k < |dates|
    ensures Instant(s) + k * step <= Instant(e)
  {
    assert dates[k] == AddSeconds(s, k * step);
  }

  /** A period starts at the start exactly when the range is ordered, and each step is `step` seconds after the last. */
  lemma PeriodShape(dates: seq<DateTime>, s: DateTime, e: DateTime, step: int)
    requires WellFormed(s) && WellFormed(e) && step > 0
    requires IsPeriod(dates, s, e, step)
    ensures |dates| > 0 <==> Instant(s) <= Instant(e)
    ensures |dates| > 0 ==> dates[0] == s
    ensures forall i :: 0 <= i < |dates| - 1 ==> Instant(dates[i + 1]) == Instant(dates[i]) + step
    ensures |dates| > 0 ==> Instant(dates[|dates| - 1]) + step > Instant(e)
  {
    AddZeroSeconds(s);
    if |dates| > 0 {
      assert dates[0] == AddSeconds(s, 0 * step);
    }
    forall i | 0 <= i < |dates| - 1
      ensures Instant(dates[i + 1]) == Instant(dates[i]) + step
    {
      assert (i + 1) * step == i * step + step;
    }
    if |dates| > 0 {
      var k := |dates| - 1;
      assert k * step + step == |dates| * step;
    }
  }
}
