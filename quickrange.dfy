/**
 * The report page's quick ranges: a period name and today's date resolve to
 * a [start, end] pair of calendar dates. Today's date is a parameter instead
 * of a clock read.
 */
module QuickRange {
  import opened Outcomes
  import opened Calendar

  const ThisWeek := "This Week (Mon-Sun)"
  const ThisMonth := "This Month"
  const ThisYear := "This Year"
  /** Days from a week's Monday to its Sunday. */
  const SundayOffset := 6

  datatype DateRange = DateRange(start: Date, end: Date)

  /** Python's OverflowError from date arithmetic past 9999-12-31. */
  datatype RangeError = DateOverflow

  /**
   * get_quick_range. "This Month" finds the month's last day the way the
   * source does: day 28 plus four days always lands in the next month, whose
   * first day minus one day is the last day of this one.
   */
  function GetQuickRange(name: string, today: Date): (r: Result<DateRange, RangeError>)
    requires ValidDate(today)
    ensures r.Ok? ==> ValidDate(r.value.start) && ValidDate(r.value.end)
  {
    if name == ThisWeek then
      WeekOf(today)
    else if name == ThisMonth then
      MonthOf(today)
    else if name == ThisYear then
      Ok(DateRange(Date(today.year, 1, 1), Date(today.year, 12, 31)))
    else
      Ok(DateRange(today, today))
  }

  /** `today - timedelta(days=today.weekday())`. */
  function MondayOf(today: Date): (r: Option<Date>)
    requires ValidDate(today)
    ensures r.Some? ==> ValidDate(r.value) && Ordinal(r.value) == Ordinal(today) - Weekday(today)
  {
    AddDays(today, -Weekday(today))
  }

  /** `start = today - timedelta(days=today.weekday())`, `end = start + timedelta(days=6)`. */
  function WeekOf(today: Date): (r: Result<DateRange, RangeError>)
    requires ValidDate(today)
    ensures r.Ok? ==> ValidDate(r.value.start) && ValidDate(r.value.end)
  {
    var start := MondayOf(today);
    if start.None? then Err(DateOverflow)
    else
      var end := AddDays(start.value, SundayOffset);
      if end.None? then Err(DateOverflow)
      else Ok(DateRange(start.value, end.value))
  }

  /**
   * `start = today.replace(day=1)`; `end = date(y, m, 28) + timedelta(days=4)`,
   * then `end.replace(day=1) - timedelta(days=1)`.
   */
  function MonthOf(today: Date): (r: Result<DateRange, RangeError>)
    requires ValidDate(today)
    ensures r.Ok? ==> ValidDate(r.value.start) && ValidDate(r.value.end)
  {
    var start := Date(today.year, today.month, 1);
    var probe := AddDays(Date(today.year, today.month, 28), 4);
    if probe.None? then Err(DateOverflow)
    else
      var end := AddDays(Date(probe.value.year, probe.value.month, 1), -1);
      if end.None? then Err(DateOverflow)
      else Ok(DateRange(start, end.value))
  }

  /** Contains(r, d): the range covers d, both ends included. */
  predicate Contains(r: DateRange, d: Date) {
    DateLe(r.start, d) && DateLe(d, r.end)
  }

  // ---------------------------------------------------------------------------
  // Properties of each period

  /** Going back weekday(today) days never passes 0001-01-01, which is a Monday. */
  lemma MondayInRange(today: Date)
    requires ValidDate(today)
    ensures 1 <= Ordinal(today) - Weekday(today)
  {
    OrdinalRange(today);
    var o := Ordinal(today);
    assert o + 6 == 7 * ((o - 1) / 7) + (o - 1) % 7 + 7;
  }

  /**
   * "This Week (Mon-Sun)": start is the Monday on or before today, end is the
   * Sunday six days later; it fails only when that Sunday is past 9999-12-31.
   */
  lemma WeekRange(today: Date)
    requires ValidDate(today)
    ensures var r := GetQuickRange(ThisWeek, today);
      && (r.Ok? <==> Ordinal(today) - Weekday(today) + 6 <= MaxOrdinal)
      && (r.Ok? ==>
            && Weekday(r.value.start) == 0
            && Weekday(r.value.end) == 6
            && Ordinal(r.value.end) == Ordinal(r.value.start) + 6
            && Ordinal(today) - Ordinal(r.value.start) == Weekday(today)
            && Contains(r.value, today))
  {
    var start := WeekStart(today);
    var end := AddDays(start, SundayOffset);
    AddDaysFails(start, SundayOffset);
    WeekOfUnfolds(today, start);
    if end.Some? {
      WeekFacts(today, start, end.value);
    }
  }

  lemma WeekOfUnfolds(today: Date, start: Date)
    requires ValidDate(today) && MondayOf(today) == Some(start) && ValidDate(start)
    ensures var end := AddDays(start, SundayOffset);
      GetQuickRange(ThisWeek, today) == if end.None? then Err(DateOverflow) else Ok(DateRange(start, end.value))
  {
    WeekDispatch(today);
    WeekOfStart(today, start);
  }

  lemma WeekDispatch(today: Date)
    requires ValidDate(today)
    ensures GetQuickRange(ThisWeek, today) == WeekOf(today)
  {
  }

  lemma WeekOfStart(today: Date, start: Date)
    requires ValidDate(today) && MondayOf(today) == Some(start) && ValidDate(start)
    ensures AddDays(start, SundayOffset).None? ==> WeekOf(today) == Err(DateOverflow)
    ensures AddDays(start, SundayOffset).Some? ==> WeekOf(today) == Ok(DateRange(start, AddDays(start, SundayOffset).value))
  {
  }

  lemma WeekFacts(today: Date, start: Date, end: Date)
    requires ValidDate(today) && ValidDate(start) && ValidDate(end)
    requires Weekday(start) == 0 && Ordinal(today) - Ordinal(start) == Weekday(today) && DateLe(start, today)
    requires Ordinal(end) == Ordinal(start) + SundayOffset
    ensures Weekday(end) == 6 && Contains(DateRange(start, end), today)
  {
    WeekEnd(start, end);
    OrdinalOrder(today, end);
  }

  /** The Monday on or before today always exists and is at most six days back. */
  lemma WeekStart(today: Date) returns (start: Date)
    requires ValidDate(today)
    ensures MondayOf(today) == Some(start)
    ensures ValidDate(start) && Weekday(start) == 0 && Ordinal(today) - Ordinal(start) == Weekday(today)
    ensures DateLe(start, today)
  {
    MondayExists(today);
    start := MondayOf(today).value;
    MondayIsMonday(today, start);
    OrdinalOrder(start, today);
  }

  lemma MondayExists(today: Date)
    requires ValidDate(today)
    ensures MondayOf(today).Some?
  {
    MondayInRange(today);
    OrdinalRange(today);
    AddDaysFails(today, -Weekday(today));
  }

  lemma MondayIsMonday(today: Date, start: Date)
    requires Ordinal(start) == Ordinal(today) - Weekday(today)
    ensures Weekday(start) == 0
  {
    WeekdayShift(today, start, -Weekday(today));
  }

  lemma WeekEnd(start: Date, end: Date)
    requires Weekday(start) == 0 && Ordinal(end) == Ordinal(start) + 6
    ensures Weekday(end) == 6
  {
    WeekdayShift(start, end, 6);
  }

  /**
   * "This Month": from day 1 to the true last day of today's month (31, 30,
   * 28, or 29 in a leap February). The source's day-28-plus-four step fails
   * only in December 9999, where the probe date is past the last representable day.
   */
  lemma MonthRange(today: Date)
    requires ValidDate(today)
    ensures var r := GetQuickRange(ThisMonth, today);
      && (r.Ok? <==> !(today.year == MaxYear && today.month == 12))
      && (r.Ok? ==> r.value == DateRange(Date(today.year, today.month, 1),
                                         Date(today.year, today.month, DaysInMonth(today.year, today.month))))
  {
    MonthDispatch(today);
    if today.year == MaxYear && today.month == 12 {
      MonthOverflow(today);
    } else {
      MonthEnd(today);
    }
  }

  lemma MonthDispatch(today: Date)
    requires ValidDate(today)
    ensures GetQuickRange(ThisMonth, today) == MonthOf(today)
  {
  }

  /** In December 9999 the day-28-plus-four probe is past the last representable day. */
  lemma MonthOverflow(today: Date)
    requires ValidDate(today) && today.year == MaxYear && today.month == 12
    ensures MonthOf(today) == Err(DateOverflow)
  {
    var day28 := Date(today.year, today.month, 28);
    assert Ordinal(day28) + 4 > MaxOrdinal;
    AddDaysFails(day28, 4);
  }

  lemma MonthEnd(today: Date)
    requires ValidDate(today) && !(today.year == MaxYear && today.month == 12)
    ensures MonthOf(today) == Ok(DateRange(Date(today.year, today.month, 1),
                                           Date(today.year, today.month, DaysInMonth(today.year, today.month))))
  {
    var y, m := today.year, today.month;
    var next := NextMonthStart(y, m);
    var probe := Date(next.year, next.month, 32 - DaysInMonth(y, m));
    AddDaysExact(Date(y, m, 28), 4, probe);
    AddDaysExact(next, -1, Date(y, m, DaysInMonth(y, m)));
  }

  /** The first day of the month after (y, m), one day past that month's last day. */
  lemma NextMonthStart(y: int, m: int) returns (next: Date)
    requires MinYear <= y <= MaxYear && 1 <= m <= 12 && !(y == MaxYear && m == 12)
    ensures next == if m < 12 then Date(y, m + 1, 1) else Date(y + 1, 1, 1)
    ensures ValidDate(next) && Ordinal(next) == Ordinal(Date(y, m, DaysInMonth(y, m))) + 1
    ensures var probe := Date(next.year, next.month, 32 - DaysInMonth(y, m));
      ValidDate(probe) && Ordinal(probe) == Ordinal(Date(y, m, 28)) + 4
  {
    next := if m < 12 then Date(y, m + 1, 1) else Date(y + 1, 1, 1);
    assert NextDay(Date(y, m, DaysInMonth(y, m))) == Some(next);
  }

  /** "This Year": January 1 to December 31 of today's year, which never fails. */
  lemma YearRange(today: Date)
    requires ValidDate(today)
    ensures GetQuickRange(ThisYear, today) == Ok(DateRange(Date(today.year, 1, 1), Date(today.year, 12, 31)))
  {
  }

  /** Any other name, "Custom" among them, gives today as both ends. */
  lemma OtherRange(name: string, today: Date)
    requires ValidDate(today) && name != ThisWeek && name != ThisMonth && name != ThisYear
    ensures GetQuickRange(name, today) == Ok(DateRange(today, today))
  {
  }

  /** Every quick range that resolves contains today. */
  lemma QuickRangeContainsToday(name: string, today: Date)
    requires ValidDate(today)
    ensures GetQuickRange(name, today).Ok? ==> Contains(GetQuickRange(name, today).value, today)
  {
    if name == ThisWeek {
      WeekRange(today);
    } else if name == ThisMonth {
      MonthRange(today);
    }
  }

  /** Before the year 9999 every quick range resolves. */
  lemma QuickRangeResolves(name: string, today: Date)
    requires ValidDate(today) && today.year < MaxYear
    ensures GetQuickRange(name, today).Ok?
  {
    if name == ThisWeek {
      WeekRange(today);
      DayOfYearBound(today);
      YearsMonotone(today.year, MaxYear);
      DaysBeforeLastYear();
    } else if name == ThisMonth {
      MonthRange(today);
    }
  }

  /** The leap-year month ends: February 2024 ends on the 29th, February 2023 on the 28th. */
  lemma FebruaryEnds()
    ensures GetQuickRange(ThisMonth, Date(2024, 2, 15)) == Ok(DateRange(Date(2024, 2, 1), Date(2024, 2, 29)))
    ensures GetQuickRange(ThisMonth, Date(2023, 2, 15)) == Ok(DateRange(Date(2023, 2, 1), Date(2023, 2, 28)))
  {
    var leap, common := Date(2024, 2, 15), Date(2023, 2, 15);
    assert IsLeapYear(2024) && !IsLeapYear(2023);
    MonthRange(leap);
    MonthRange(common);
  }
}
