/**
 * Calendar dates as Python's `datetime.date` has them: the proleptic Gregorian
 * calendar over the years 1 to 9999, a day number ("ordinal", 0001-01-01 is 1),
 * the weekday with Monday = 0, and `date + timedelta(days = n)`, which raises
 * OverflowError when the result leaves the representable range.
 */
module Calendar {
  import opened Outcomes

  const MinYear := 1
  const MaxYear := 9999
  /** The ordinal of 9999-12-31, the last representable date. */
  const MaxOrdinal := 3652059

  datatype Date = Date(year: int, month: int, day: int)

  predicate IsLeapYear(y: int) {
    y % 4 == 0 && (y % 100 != 0 || y % 400 == 0)
  }

  function DaysInMonth(y: int, m: int): int {
    if m == 2 then (if IsLeapYear(y) then 29 else 28)
    else if m == 4 || m == 6 || m == 9 || m == 11 then 30
    else 31
  }

  function DaysInYear(y: int): int {
    if IsLeapYear(y) then 366 else 365
  }

  /** A date Python can represent. */
  predicate ValidDate(d: Date) {
    MinYear <= d.year <= MaxYear && 1 <= d.month <= 12 && 1 <= d.day <= DaysInMonth(d.year, d.month)
  }

  /** Calendar order: (year, month, day) compared lexicographically, as Python compares dates. */
  predicate DateLe(a: Date, b: Date) {
    a.year < b.year || (a.year == b.year && (a.month < b.month || (a.month == b.month && a.day <= b.day)))
  }

  predicate DateLt(a: Date, b: Date) {
    DateLe(a, b) && a != b
  }

  /** Days in the years before year y. */
  function DaysBeforeYear(y: int): int {
    var p := y - 1;
    p * 365 + p / 4 - p / 100 + p / 400
  }

  /** Days in the months of year y before month m. */
  function DaysBeforeMonth(y: int, m: int): int {
    var common :=
      if m <= 1 then 0 else if m == 2 then 31 else if m == 3 then 59 else if m == 4 then 90
      else if m == 5 then 120 else if m == 6 then 151 else if m == 7 then 181
      else if m == 8 then 212 else if m == 9 then 243 else if m == 10 then 273
      else if m == 11 then 304 else 334;
    common + (if m > 2 && IsLeapYear(y) then 1 else 0)
  }

  /** The day number of a date: 0001-01-01 is day 1. */
  function Ordinal(d: Date): int {
    DaysBeforeYear(d.year) + DaysBeforeMonth(d.year, d.month) + d.day
  }

  /** Day of the week, Monday = 0 through Sunday = 6. */
  function Weekday(d: Date): (w: int)
    ensures 0 <= w < 7
  {
    (Ordinal(d) + 6) % 7
  }

  /** Day 1 of the calendar, 0001-01-01, is a Monday, and so is 2024-03-11. */
  lemma FirstDayIsMonday()
    ensures Weekday(Date(MinYear, 1, 1)) == 0
    ensures Weekday(Date(2024, 3, 11)) == 0
  {
  }

  // ---------------------------------------------------------------------------
  // Arithmetic facts about the day numbering

  lemma DivStep(y: int)
    ensures y / 4 - (y - 1) / 4 == if y % 4 == 0 then 1 else 0
    ensures y / 100 - (y - 1) / 100 == if y % 100 == 0 then 1 else 0
    ensures y / 400 - (y - 1) / 400 == if y % 400 == 0 then 1 else 0
  {
  }

  lemma LeapDivisibility(y: int)
    ensures y % 400 == 0 ==> y % 100 == 0
    ensures y % 100 == 0 ==> y % 4 == 0
  {
    if y % 400 == 0 {
      assert y == 400 * (y / 400);
      assert y == 100 * (4 * (y / 400));
    }
    if y % 100 == 0 {
      assert y == 100 * (y / 100);
      assert y == 4 * (25 * (y / 100));
    }
  }

  /** Moving to the next year adds that year's length. */
  lemma YearStep(y: int)
    ensures DaysBeforeYear(y + 1) == DaysBeforeYear(y) + DaysInYear(y)
  {
    DivStep(y);
    LeapDivisibility(y);
  }

  /** Moving to the next month adds that month's length. */
  lemma MonthStep(y: int, m: int)
    requires 1 <= m < 12
    ensures DaysBeforeMonth(y, m + 1) == DaysBeforeMonth(y, m) + DaysInMonth(y, m)
  {
  }

  lemma YearLength(y: int)
    ensures DaysBeforeMonth(y, 12) + DaysInMonth(y, 12) == DaysInYear(y)
  {
  }

  lemma {:induction false} MonthsMonotone(y: int, m1: int, m2: int)
    requires 1 <= m1 < m2 <= 12
    ensures DaysBeforeMonth(y, m1) + DaysInMonth(y, m1) <= DaysBeforeMonth(y, m2)
    decreases m2 - m1
  {
    MonthStep(y, m1);
    if m1 + 1 < m2 {
      MonthsMonotone(y, m1 + 1, m2);
    }
  }

  lemma {:induction false} YearsMonotone(y1: int, y2: int)
    requires y1 < y2
    ensures DaysBeforeYear(y1) + DaysInYear(y1) <= DaysBeforeYear(y2)
    decreases y2 - y1
  {
    YearStep(y1);
    if y1 + 1 < y2 {
      YearsMonotone(y1 + 1, y2);
    }
  }

  /** The last day of a date's year has at most the year's length as its day-of-year. */
  lemma DayOfYearBound(d: Date)
    requires ValidDate(d)
    ensures Ordinal(d) <= DaysBeforeYear(d.year) + DaysInYear(d.year)
  {
    YearLength(d.year);
    if d.month < 12 {
      MonthsMonotone(d.year, d.month, 12);
    }
  }

  /** The day number is strictly increasing in calendar order. */
  lemma OrdinalMonotone(a: Date, b: Date)
    requires ValidDate(a) && ValidDate(b) && DateLt(a, b)
    ensures Ordinal(a) < Ordinal(b)
  {
    if a.year < b.year {
      DayOfYearBound(a);
      YearsMonotone(a.year, b.year);
    } else if a.month < b.month {
      MonthsMonotone(a.year, a.month, b.month);
    }
  }

  /** For valid dates, calendar order and day-number order coincide. */
  lemma OrdinalOrder(a: Date, b: Date)
    requires ValidDate(a) && ValidDate(b)
    ensures DateLe(a, b) <==> Ordinal(a) <= Ordinal(b)
    ensures a == b <==> Ordinal(a) == Ordinal(b)
  {
    if DateLt(a, b) {
      OrdinalMonotone(a, b);
    } else if DateLt(b, a) {
      OrdinalMonotone(b, a);
    }
  }

  lemma DaysBeforeLastYear()
    ensures DaysBeforeYear(MaxYear) == 3651694
  {
    assert 9998 / 4 == 2499;
    assert 9998 / 100 == 99;
    assert 9998 / 400 == 24;
  }

  lemma FirstOrdinal()
    ensures Ordinal(Date(MinYear, 1, 1)) == 1
  {
  }

  lemma LastOrdinal()
    ensures Ordinal(Date(MaxYear, 12, 31)) == MaxOrdinal
  {
    DaysBeforeLastYear();
    LastYearIsCommon();
  }

  lemma DaysBeforeYearPastEnd()
    ensures DaysBeforeYear(MaxYear + 1) == MaxOrdinal
  {
    assert 9999 / 4 == 2499;
    assert 9999 / 100 == 99;
    assert 9999 / 400 == 24;
  }

  lemma LastYearIsCommon()
    ensures !IsLeapYear(9999)
  {
    assert 9999 % 4 == 3;
  }

  /** Every valid date has a day number in 1..MaxOrdinal. */
  lemma OrdinalRange(d: Date)
    requires ValidDate(d)
    ensures 1 <= Ordinal(d) <= MaxOrdinal
  {
    DayOfYearBound(d);
    YearsMonotone(d.year, MaxYear + 1);
    DaysBeforeYearPastEnd();
    assert DaysBeforeYear(d.year) >= 0 by {
      var p := d.year - 1;
      assert p / 100 <= p;
    }
  }

  // ---------------------------------------------------------------------------
  // date + timedelta

  /** The following day; None past 9999-12-31. */
  function NextDay(d: Date): (r: Option<Date>)
    requires ValidDate(d)
    ensures r.None? <==> d == Date(MaxYear, 12, 31)
    ensures r.Some? ==> ValidDate(r.value) && Ordinal(r.value) == Ordinal(d) + 1
  {
    if d.day < DaysInMonth(d.year, d.month) then
      Some(Date(d.year, d.month, d.day + 1))
    else if d.month < 12 then
      MonthStep(d.year, d.month);
      Some(Date(d.year, d.month + 1, 1))
    else if d.year < MaxYear then
      YearStep(d.year);
      YearLength(d.year);
      Some(Date(d.year + 1, 1, 1))
    else
      None
  }

  /** The preceding day; None before 0001-01-01. */
  function PrevDay(d: Date): (r: Option<Date>)
    requires ValidDate(d)
    ensures r.None? <==> d == Date(MinYear, 1, 1)
    ensures r.Some? ==> ValidDate(r.value) && Ordinal(r.value) == Ordinal(d) - 1
  {
    if d.day > 1 then
      Some(Date(d.year, d.month, d.day - 1))
    else if d.month > 1 then
      MonthStep(d.year, d.month - 1);
      Some(Date(d.year, d.month - 1, DaysInMonth(d.year, d.month - 1)))
    else if d.year > MinYear then
      YearStep(d.year - 1);
      YearLength(d.year - 1);
      Some(Date(d.year - 1, 12, 31))
    else
      None
  }

  /**
   * Python's `d + timedelta(days = n)`: the date whose day number is
   * Ordinal(d) + n, or None (OverflowError) when no valid date has it
   * (AddDaysFails says exactly when).
   */
  function AddDays(d: Date, n: int): (r: Option<Date>)
    requires ValidDate(d)
    ensures r.Some? ==> ValidDate(r.value) && Ordinal(r.value) == Ordinal(d) + n
    decreases if n < 0 then -n else n
  {
    if n == 0 then
      Some(d)
    else if n > 0 then
      var next := NextDay(d);
      if next.None? then None else AddDays(next.value, n - 1)
    else
      var prev := PrevDay(d);
      if prev.None? then None else AddDays(prev.value, n + 1)
  }

  /** The shift fails exactly when the target day number is outside 1..MaxOrdinal. */
  lemma AddDaysFails(d: Date, n: int)
    requires ValidDate(d)
    ensures AddDays(d, n).None? <==> !(1 <= Ordinal(d) + n <= MaxOrdinal)
  {
    OrdinalRange(d);
    if n > 0 {
      ForwardFails(d, n);
    } else if n < 0 {
      BackwardFails(d, n);
    }
  }

  /** One step of a forward shift: move to the next day, one day less to go. */
  lemma ForwardStep(d: Date, n: int)
    requires ValidDate(d) && n > 0 && NextDay(d).Some?
    ensures AddDays(d, n) == AddDays(NextDay(d).value, n - 1)
  {
  }

  /** One step of a backward shift: move to the previous day, one day less to go. */
  lemma BackwardStep(d: Date, n: int)
    requires ValidDate(d) && n < 0 && PrevDay(d).Some?
    ensures AddDays(d, n) == AddDays(PrevDay(d).value, n + 1)
  {
  }

  lemma {:induction false} ForwardFails(d: Date, n: int)
    requires ValidDate(d) && n > 0
    ensures AddDays(d, n).None? <==> Ordinal(d) + n > MaxOrdinal
    decreases n
  {
    var next := NextDay(d);
    if next.Some? {
      ForwardStep(d, n);
      if n > 1 {
        ForwardFails(next.value, n - 1);
      } else {
        OrdinalRange(next.value);
      }
    } else {
      LastOrdinal();
    }
  }

  lemma {:induction false} BackwardFails(d: Date, n: int)
    requires ValidDate(d) && n < 0
    ensures AddDays(d, n).None? <==> Ordinal(d) + n < 1
    decreases -n
  {
    var prev := PrevDay(d);
    if prev.Some? {
      BackwardStep(d, n);
      if n < -1 {
        BackwardFails(prev.value, n + 1);
      } else {
        OrdinalRange(prev.value);
      }
    } else {
      FirstOrdinal();
    }
  }

  /** Any valid date with the right day number is the one AddDays finds. */
  lemma AddDaysExact(d: Date, n: int, x: Date)
    requires ValidDate(d) && ValidDate(x) && Ordinal(x) == Ordinal(d) + n
    ensures AddDays(d, n) == Some(x)
  {
    OrdinalRange(x);
    AddDaysFails(d, n);
    OrdinalOrder(AddDays(d, n).value, x);
  }

  /** Dates n days apart have weekdays n apart, modulo 7. */
  lemma WeekdayShift(a: Date, b: Date, n: int)
    requires Ordinal(b) == Ordinal(a) + n
    ensures Weekday(b) == (Weekday(a) + n) % 7
  {
    ModShift(Ordinal(a) + 6, n);
  }

  lemma ModShift(a: int, n: int)
    ensures (a + n) % 7 == (a % 7 + n) % 7
  {
    var q := a / 7;
    assert a + n == 7 * q + (a % 7 + n);
  }
}
