/**
 * The proleptic Gregorian calendar that PHP's DateTime works in: civil dates,
 * their day numbers counted from 1970-01-01, and stepping one day back or forward.
 */
module Calendar {

  /** A civil date; `ValidDate` says when it names a real day. */
  datatype Date = Date(year: int, month: int, day: int)

  predicate IsLeapYear(y: int) {
    y % 4 == 0 && (y % 100 != 0 || y % 400 == 0)
  }

  function DaysInMonth(y: int, m: int): (n: int)
    requires 1 <= m <= 12
    ensures 28 <= n <= 31
    ensures m == 2 ==> (n == 29 <==> IsLeapYear(y))
  {
    if m == 2 then (if IsLeapYear(y) then 29 else 28)
    else if m == 4 || m == 6 || m == 9 || m == 11 then 30
    else 31
  }

  predicate ValidDate(d: Date) {
    1 <= d.month <= 12 && 1 <= d.day <= DaysInMonth(d.year, d.month)
  }

  function DaysInYear(y: int): int {
    if IsLeapYear(y) then 366 else 365
  }

  /** Days of year `y` that lie before the first of month `m`; month 13 stands for the next year's first day. */
  function DaysBeforeMonth(y: int, m: int): int
    requires 1 <= m <= 13
  {
    var leap := if IsLeapYear(y) then 1 else 0;
    if m == 1 then 0
    else if m == 2 then 31
    else if m == 3 then 59 + leap
    else if m == 4 then 90 + leap
    else if m == 5 then 120 + leap
    else if m == 6 then 151 + leap
    else if m == 7 then 181 + leap
    else if m == 8 then 212 + leap
    else if m == 9 then 243 + leap
    else if m == 10 then 273 + leap
    else if m == 11 then 304 + leap
    else if m == 12 then 334 + leap
    else 365 + leap
  }

  /** Days from 0001-01-01 to the first of January of year `y` (negative before year 1). */
  function DaysBeforeYear(y: int): int {
    var k := y - 1;
    365 * k + k / 4 - k / 100 + k / 400
  }

  /** Days from 0001-01-01 to 1970-01-01. */
  const UnixEpochDays: int := 719162

  const UnixEpoch: Date := Date(1970, 1, 1)

  /** Day number of a date: the number of days since 1970-01-01 (negative before it). */
  function DayNumber(d: Date): int
    requires 1 <= d.month <= 12
  {
    DaysBeforeYear(d.year) - UnixEpochDays + DaysBeforeMonth(d.year, d.month) + d.day - 1
  }

  /** The calendar day after `d`. */
  function NextDay(d: Date): Date
    requires ValidDate(d)
  {
    if d.day < DaysInMonth(d.year, d.month) then Date(d.year, d.month, d.day + 1)
    else if d.month < 12 then Date(d.year, d.month + 1, 1)
    else Date(d.year + 1, 1, 1)
  }

  /** The calendar day before `d` (what subtracting the interval P1D does to a date). */
  function PrevDay(d: Date): Date
    requires ValidDate(d)
  {
    if d.day > 1 then Date(d.year, d.month, d.day - 1)
    else if d.month > 1 then Date(d.year, d.month - 1, DaysInMonth(d.year, d.month - 1))
    else Date(d.year - 1, 12, 31)
  }

  /** `d` moved by `k` days, forward when `k` is positive and back when it is negative. */
  function ShiftDays(d: Date, k: int): Date
    requires ValidDate(d)
    decreases if k < 0 then -k else k
  {
    if k == 0 then d
    else if k > 0 then (NextDayFacts(d); ShiftDays(NextDay(d), k - 1))
    else (PrevDayFacts(d); ShiftDays(PrevDay(d), k + 1))
  }

  /** Lexicographic order on dates. */
  predicate DateBefore(a: Date, b: Date) {
    a.year < b.year
    || (a.year == b.year && a.month < b.month)
    || (a.year == b.year && a.month == b.month && a.day < b.day)
  }

  // ---------------------------------------------------------------- lemmas

  /** Floor division by 4, 100 and 400 goes up by one exactly at multiples of the divisor. */
  lemma QuotientStep4(y: int)
    ensures y / 4 - (y - 1) / 4 == if y % 4 == 0 then 1 else 0
  {
  }

  lemma QuotientStep100(y: int)
    ensures y / 100 - (y - 1) / 100 == if y % 100 == 0 then 1 else 0
  {
  }

  lemma QuotientStep400(y: int)
    ensures y / 400 - (y - 1) / 400 == if y % 400 == 0 then 1 else 0
  {
  }

  /** A multiple of 400 is a multiple of 100, and a multiple of 100 is a multiple of 4. */
  lemma LeapDivisors(y: int)
    ensures y % 400 == 0 ==> y % 100 == 0
    ensures y % 100 == 0 ==> y % 4 == 0
  {
    if y % 400 == 0 {
      var q := y / 400;
      assert y == 100 * (4 * q);
      MultipleOf100(4 * q);
    }
    if y % 100 == 0 {
      var q := y / 100;
      assert y == 4 * (25 * q);
      MultipleOf4(25 * q);
    }
  }

  lemma MultipleOf100(q: int)
    ensures (100 * q) % 100 == 0
  {
  }

  lemma MultipleOf4(q: int)
    ensures (4 * q) % 4 == 0
  {
  }

  lemma DaysBeforeYearStep(y: int)
    ensures DaysBeforeYear(y + 1) == DaysBeforeYear(y) + DaysInYear(y)
  {
    QuotientStep4(y);
    QuotientStep100(y);
    QuotientStep400(y);
    LeapDivisors(y);
    assert DaysBeforeYear(y + 1) == 365 * y + y / 4 - y / 100 + y / 400;
  }

  /** A whole year of months adds up to the length of the year. */
  lemma YearOfMonths(y: int)
    ensures DaysBeforeMonth(y, 13) == DaysInYear(y)
    ensures DaysBeforeYear(y + 1) == DaysBeforeYear(y) + DaysBeforeMonth(y, 13)
  {
    DaysBeforeYearStep(y);
  }

  lemma MonthStep(y: int, m: int)
    requires 1 <= m <= 12
    ensures DaysBeforeMonth(y, m + 1) == DaysBeforeMonth(y, m) + DaysInMonth(y, m)
  {
  }

  /** The day number of `PrevDay(d)` is one less than that of `d`, and `PrevDay(d)` is a real date. */
  lemma PrevDayFacts(d: Date)
    requires ValidDate(d)
    ensures ValidDate(PrevDay(d))
    ensures DayNumber(PrevDay(d)) == DayNumber(d) - 1
  {
    if d.day == 1 {
      if d.month > 1 {
        MonthStep(d.year, d.month - 1);
      } else {
        YearOfMonths(d.year - 1);
      }
    }
  }

  /** The day number of `NextDay(d)` is one more than that of `d`, and `NextDay(d)` is a real date. */
  lemma NextDayFacts(d: Date)
    requires ValidDate(d)
    ensures ValidDate(NextDay(d))
    ensures DayNumber(NextDay(d)) == DayNumber(d) + 1
  {
    if d.day == DaysInMonth(d.year, d.month) {
      if d.month < 12 {
        MonthStep(d.year, d.month);
      } else {
        YearOfMonths(d.year);
      }
    }
  }

  /** Stepping back and forward are inverse to each other. */
  lemma PrevNextInverse(d: Date)
    requires ValidDate(d)
    ensures ValidDate(PrevDay(d)) && NextDay(PrevDay(d)) == d
    ensures ValidDate(NextDay(d)) && PrevDay(NextDay(d)) == d
  {
    PrevDayFacts(d);
    NextDayFacts(d);
  }

  /** Shifting by `k` days moves the day number by exactly `k`. */
  lemma {:induction false} ShiftDaysFacts(d: Date, k: int)
    requires ValidDate(d)
    ensures ValidDate(ShiftDays(d, k))
    ensures DayNumber(ShiftDays(d, k)) == DayNumber(d) + k
    decreases if k < 0 then -k else k
  {
    if k > 0 {
      NextDayFacts(d);
      ShiftDaysFacts(NextDay(d), k - 1);
    } else if k < 0 {
      PrevDayFacts(d);
      ShiftDaysFacts(PrevDay(d), k + 1);
    }
  }

  /** Position of a date within its year, counted from 0. */
  function DayOfYear(d: Date): int
    requires 1 <= d.month <= 12
  {
    DaysBeforeMonth(d.year, d.month) + d.day - 1
  }

  lemma DayOfYearBounds(d: Date)
    requires ValidDate(d)
    ensures 0 <= DayOfYear(d) < DaysBeforeMonth(d.year, d.month + 1)
    ensures DaysBeforeMonth(d.year, d.month + 1) <= DaysBeforeMonth(d.year, 13)
  {
    MonthStep(d.year, d.month);
  }

  lemma MonthsIncrease(y: int, m1: int, m2: int)
    requires 1 <= m1 <= m2 <= 13
    ensures DaysBeforeMonth(y, m1) <= DaysBeforeMonth(y, m2)
  {
  }

  lemma {:induction false} YearsIncrease(y1: int, y2: int)
    requires y1 < y2
    ensures DaysBeforeYear(y1) + DaysInYear(y1) <= DaysBeforeYear(y2)
    decreases y2 - y1
  {
    DaysBeforeYearStep(y1);
    if y1 + 1 < y2 {
      YearsIncrease(y1 + 1, y2);
    }
  }

  /** Day numbers follow the calendar order of valid dates strictly. */
  lemma DayNumberIncreasing(a: Date, b: Date)
    requires ValidDate(a) && ValidDate(b) && DateBefore(a, b)
    ensures DayNumber(a) < DayNumber(b)
  {
    DayOfYearBounds(a);
    DayOfYearBounds(b);
    if a.year < b.year {
      YearOfMonths(a.year);
      YearsIncrease(a.year, b.year);
    } else if a.month < b.month {
      MonthsIncrease(a.year, a.month + 1, b.month);
    }
  }

  /** Distinct valid dates have distinct day numbers. */
  lemma DayNumberInjective(a: Date, b: Date)
    requires ValidDate(a) && ValidDate(b) && DayNumber(a) == DayNumber(b)
    ensures a == b
  {
    if DateBefore(a, b) {
      DayNumberIncreasing(a, b);
    } else if DateBefore(b, a) {
      DayNumberIncreasing(b, a);
    }
  }

  /** `PrevDay(d)` is the one valid date whose day number is one less than that of `d`. */
  lemma PrevDayUnique(d: Date, e: Date)
    requires ValidDate(d) && ValidDate(e)
    ensures DayNumber(e) == DayNumber(d) - 1 <==> e == PrevDay(d)
  {
    PrevDayFacts(d);
    if DayNumber(e) == DayNumber(d) - 1 {
      DayNumberInjective(e, PrevDay(d));
    }
  }

  /** The Unix epoch has day number 0. */
  lemma UnixEpochIsDayZero()
    ensures ValidDate(UnixEpoch) && DayNumber(UnixEpoch) == 0
  {
  }

  /** The cases the class's test case (DateRangeTest.php) exercises: a leap day, the first of March in a leap year, New Year's day. */
  lemma PrevDayExamples()
    ensures PrevDay(Date(2016, 2, 29)) == Date(2016, 2, 28)
    ensures PrevDay(Date(2016, 3, 1)) == Date(2016, 2, 29)
    ensures PrevDay(Date(2015, 3, 1)) == Date(2015, 2, 28)
    ensures PrevDay(Date(1900, 3, 1)) == Date(1900, 2, 28)
    ensures PrevDay(Date(2000, 3, 1)) == Date(2000, 2, 29)
    ensures PrevDay(Date(2014, 1, 1)) == Date(2013, 12, 31)
    ensures PrevDay(Date(2016, 2, 28)) == Date(2016, 2, 27)
  {
  }
}
