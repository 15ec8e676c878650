/**
 * PHP's DateTime, as the date-range class uses it: a wall-clock date and time of
 * day in a zone with a fixed UTC offset. Every operation that moves the wall clock
 * (setTime with out-of-range fields, modify("+N seconds"), setTimezone,
 * setTimestamp) re-normalises through `Normalize`, which carries whole days into the date.
 */
module Moments {
  import opened Calendar

  const SecondsPerDay: int := 86400

  /** A date-time: civil date, seconds since local midnight, UTC offset of its zone in seconds. */
  datatype DateTime = DateTime(date: Date, secs: int, offset: int)

  /** What every DateTime object satisfies: a real date and a time of day within it. */
  predicate WellFormed(t: DateTime) {
    ValidDate(t.date) && 0 <= t.secs < SecondsPerDay
  }

  /** The absolute instant, as a Unix timestamp; PHP compares DateTime objects by it. */
  function Instant(t: DateTime): int
    requires WellFormed(t)
  {
    DayNumber(t.date) * SecondsPerDay + t.secs - t.offset
  }

  /** The instant at which the local day of `t` begins. */
  function DayStart(t: DateTime): int
    requires WellFormed(t)
  {
    DayNumber(t.date) * SecondsPerDay - t.offset
  }

  /** The wall clock `local` seconds after the start of `date`, carried into whole days. */
  function Normalize(date: Date, local: int, offset: int): (r: DateTime)
    requires ValidDate(date)
    ensures WellFormed(r) && r.offset == offset
    ensures Instant(r) == DayNumber(date) * SecondsPerDay + local - offset
  {
    ShiftDaysFacts(date, local / SecondsPerDay);
    DateTime(ShiftDays(date, local / SecondsPerDay), local % SecondsPerDay, offset)
  }

  /** Two well-formed date-times with the same offset and the same instant are equal. */
  lemma InstantDetermines(a: DateTime, b: DateTime)
    requires WellFormed(a) && WellFormed(b)
    requires a.offset == b.offset && Instant(a) == Instant(b)
    ensures a == b
  {
    var da, db := DayNumber(a.date), DayNumber(b.date);
    assert (da - db) * SecondsPerDay == b.secs - a.secs;
    DayNumberInjective(a.date, b.date);
  }

  /** DateTime::setTime(h, mi, s): keeps the date and sets the clock; fields past the day roll into the date. */
  function SetTime(t: DateTime, h: int, mi: int, s: int): (r: DateTime)
    requires WellFormed(t)
    ensures WellFormed(r) && r.offset == t.offset
    ensures Instant(r) == DayStart(t) + h * 3600 + mi * 60 + s
    ensures 0 <= h * 3600 + mi * 60 + s < SecondsPerDay ==>
              r.date == t.date && r.secs == h * 3600 + mi * 60 + s
  {
    var r := Normalize(t.date, h * 3600 + mi * 60 + s, t.offset);
    if 0 <= h * 3600 + mi * 60 + s < SecondsPerDay then
      assert r.secs == h * 3600 + mi * 60 + s;
      ShiftDaysFacts(t.date, 0);
      r
    else r
  }

  /** DateTime::sub(new DateInterval('P1D')): the same clock time one calendar day earlier. */
  function SubDay(t: DateTime): (r: DateTime)
    requires WellFormed(t)
    ensures WellFormed(r) && r.offset == t.offset && r.secs == t.secs
    ensures Instant(r) == Instant(t) - SecondsPerDay
  {
    PrevDayFacts(t.date);
    t.(date := PrevDay(t.date))
  }

  /** DateTime::modify("+n seconds"): the wall clock advanced by `n` seconds, in the same zone. */
  function AddSeconds(t: DateTime, n: int): (r: DateTime)
    requires WellFormed(t)
    ensures WellFormed(r) && r.offset == t.offset
    ensures Instant(r) == Instant(t) + n
  {
    Normalize(t.date, t.secs + n, t.offset)
  }

  /** DateTime::setTimezone: the same instant read on the wall clock of a zone with offset `offset`. */
  function WithOffset(t: DateTime, offset: int): (r: DateTime)
    requires WellFormed(t)
    ensures WellFormed(r) && r.offset == offset
    ensures Instant(r) == Instant(t)
  {
    Normalize(t.date, t.secs + offset - t.offset, offset)
  }

  /** DateTime::setTimestamp in a zone with offset `offset`. */
  function FromTimestamp(ts: int, offset: int): (r: DateTime)
    ensures WellFormed(r) && r.offset == offset
    ensures Instant(r) == ts
  {
    UnixEpochIsDayZero();
    Normalize(UnixEpoch, ts + offset, offset)
  }

  // ---------------------------------------------------------------- lemmas

  /** Reading a date-time back from its own timestamp and offset gives it back. */
  lemma FromTimestampInstant(t: DateTime)
    requires WellFormed(t)
    ensures FromTimestamp(Instant(t), t.offset) == t
  {
    InstantDetermines(FromTimestamp(Instant(t), t.offset), t);
  }

  /** Changing zone is the same as reading the instant in the new zone; changing back restores the original. */
  lemma WithOffsetRoundTrip(t: DateTime, offset: int)
    requires WellFormed(t)
    ensures WithOffset(t, offset) == FromTimestamp(Instant(t), offset)
    ensures WithOffset(WithOffset(t, offset), t.offset) == t
  {
    InstantDetermines(WithOffset(t, offset), FromTimestamp(Instant(t), offset));
    InstantDetermines(WithOffset(WithOffset(t, offset), t.offset), t);
  }

  /** Advancing by `a` and then by `b` seconds is advancing by `a + b`. */
  lemma AddSecondsTwice(t: DateTime, a: int, b: int)
    requires WellFormed(t)
    ensures AddSeconds(AddSeconds(t, a), b) == AddSeconds(t, a + b)
  {
    InstantDetermines(AddSeconds(AddSeconds(t, a), b), AddSeconds(t, a + b));
  }

  /** Advancing by zero seconds changes nothing. */
  lemma AddZeroSeconds(t: DateTime)
    requires WellFormed(t)
    ensures AddSeconds(t, 0) == t
  {
    InstantDetermines(AddSeconds(t, 0), t);
  }

  /** The conversion from the class's test case (DateRangeTest.php): New York (-05:00) to Chatham (+13:45). */
  lemma WithOffsetExamples()
    ensures WithOffset(DateTime(Date(2014, 1, 1), 0, -18000), 49500)
         == DateTime(Date(2014, 1, 1), 18 * 3600 + 45 * 60, 49500)
    ensures WithOffset(DateTime(Date(2014, 1, 31), 23 * 3600 + 59 * 60 + 59, -18000), 49500)
         == DateTime(Date(2014, 2, 1), 18 * 3600 + 44 * 60 + 59, 49500)
  {
    assert Normalize(Date(2014, 1, 1), 67500, 49500) == DateTime(ShiftDays(Date(2014, 1, 1), 0), 67500, 49500);
    assert Normalize(Date(2014, 1, 31), 153899, 49500) == DateTime(ShiftDays(Date(2014, 1, 31), 1), 67499, 49500);
    assert ShiftDays(Date(2014, 1, 31), 1) == ShiftDays(Date(2014, 2, 1), 0);
  }
}
