/**
 * The reports page: pick a period (a custom pair of dates or a quick range),
 * keep the trips and expenses dated inside it, show their totals, and hand
 * the kept rows and the period to the PDF report.
 */
module ReportsPage {
  import opened Outcomes
  import opened Calendar
  import opened IsoDate
  import opened QuickRange
  import opened Records
  import opened PdfReport

  /** The range choice that reads the two date inputs instead of a quick range. */
  const Custom := "Custom"

  /** What the page shows. */
  datatype ReportsView =
    | NoData
    | RangeFailed(error: RangeError)
    | Shown(start: Date, end: Date, trips: seq<Trip>, expenses: seq<Expense>, miles: real, expenseTotal: real)

  /**
   * show_reports up to the "Generate IRS PDF" button. The date inputs and
   * today's date are parameters.
   */
  function ShowReports(trips: seq<Trip>, expenses: seq<Expense>, quick: string,
                       customStart: Date, customEnd: Date, today: Date): (v: ReportsView)
    requires ValidDate(customStart) && ValidDate(customEnd) && ValidDate(today)
    ensures v.NoData? <==> trips == [] && expenses == []
    ensures v.RangeFailed? ==> quick != Custom
    ensures v.Shown? ==> && ValidDate(v.start) && ValidDate(v.end)
                         && (quick == Custom ==> v.start == customStart && v.end == customEnd)
                         && (forall t :: t in v.trips <==> t in trips && InPeriod(t.tripDate, v.start, v.end))
                         && (forall x :: x in v.expenses <==> x in expenses && InPeriod(x.expenseDate, v.start, v.end))
                         && IsSubsequence(v.trips, trips) && IsSubsequence(v.expenses, expenses)
                         && v.miles == TotalMiles(v.trips) && v.expenseTotal == TotalExpenses(v.expenses)
    ensures v.Shown? ==> v.trips == TripsInPeriod(trips, v.start, v.end)
                         && v.expenses == ExpensesInPeriod(expenses, v.start, v.end)
    ensures (trips != [] || expenses != []) && quick != Custom ==>
              && (v.RangeFailed? <==> GetQuickRange(quick, today).Err?)
              && (v.RangeFailed? ==> GetQuickRange(quick, today) == Err(v.error))
              && (v.Shown? ==> GetQuickRange(quick, today) == Ok(DateRange(v.start, v.end)))
  {
    if trips == [] && expenses == [] then
      NoData
    else
      var range := if quick == Custom then Ok(DateRange(customStart, customEnd)) else GetQuickRange(quick, today);
      if range.Err? then
        RangeFailed(range.error)
      else
        var start, end := range.value.start, range.value.end;
        var kept, spent := TripsInPeriod(trips, start, end), ExpensesInPeriod(expenses, start, end);
        Shown(start, end, kept, spent, TotalMiles(kept), TotalExpenses(spent))
  }

  /** With a quick range, a row dated today is always in the report. */
  lemma QuickRangeKeepsToday(trips: seq<Trip>, expenses: seq<Expense>, quick: string,
                             customStart: Date, customEnd: Date, today: Date, t: Trip)
    requires ValidDate(customStart) && ValidDate(customEnd) && ValidDate(today)
    requires quick != Custom && t in trips && t.tripDate == Iso(today)
    ensures var v := ShowReports(trips, expenses, quick, customStart, customEnd, today);
      v.Shown? ==> t in v.trips
  {
    var v := ShowReports(trips, expenses, quick, customStart, customEnd, today);
    if v.Shown? {
      QuickRangeContainsToday(quick, today);
      assert GetQuickRange(quick, today) == Ok(DateRange(v.start, v.end));
      InPeriodIsCalendarOrder(today, v.start, v.end);
    }
  }

  /** Before the year 9999 the page never fails to resolve its range. */
  lemma RangeResolvesBeforeLastYear(trips: seq<Trip>, expenses: seq<Expense>, quick: string,
                                    customStart: Date, customEnd: Date, today: Date)
    requires ValidDate(customStart) && ValidDate(customEnd) && ValidDate(today) && today.year < MaxYear
    ensures !ShowReports(trips, expenses, quick, customStart, customEnd, today).RangeFailed?
  {
    if quick != Custom {
      QuickRangeResolves(quick, today);
    }
  }

  /** A custom range whose end is before its start shows nothing and zero totals. */
  lemma InvertedCustomRange(trips: seq<Trip>, expenses: seq<Expense>, customStart: Date, customEnd: Date, today: Date)
    requires ValidDate(customStart) && ValidDate(customEnd) && ValidDate(today)
    requires DateLt(customEnd, customStart) && (trips != [] || expenses != [])
    ensures ShowReports(trips, expenses, Custom, customStart, customEnd, today)
      == Shown(customStart, customEnd, [], [], 0.0, 0.0)
  {
    InvertedPeriodSelectsNothing(trips, expenses, customStart, customEnd);
  }

  /** A trip and an expense dated inside a custom range are both reported, with their own totals. */
  lemma SingleDayReport(d: Date, first: Date, last: Date, today: Date, trip: Trip, spend: Expense)
    requires ValidDate(d) && ValidDate(first) && ValidDate(last) && ValidDate(today)
    requires DateLe(first, d) && DateLe(d, last)
    requires trip.tripDate == Iso(d) && spend.expenseDate == Iso(d)
    ensures ShowReports([trip], [spend], Custom, first, last, today)
      == Shown(first, last, [trip], [spend], trip.miles, spend.amount)
  {
    InPeriodIsCalendarOrder(d, first, last);
    FilterAll([trip], (t: Trip) => InPeriod(t.tripDate, first, last));
    FilterAll([spend], (x: Expense) => InPeriod(x.expenseDate, first, last));
    SumSingle(trip, (t: Trip) => t.miles);
    SumSingle(spend, (x: Expense) => x.amount);
  }

  /**
   * One 50-mile trip and one 40-dollar expense on 2024-03-10, reported for
   * March 2024: both rows are kept, the totals are 50 miles and 40 dollars,
   * and the deduction is 36.25 dollars.
   */
  lemma MarchExample(today: Date)
    requires ValidDate(today)
    ensures var trip := Trip("2024-03-10", None, None, 50.0, Some(""));
      var spend := Expense("2024-03-10", Gas, Some(""), 40.0);
      && ShowReports([trip], [spend], Custom, Date(2024, 3, 1), Date(2024, 3, 31), today)
           == Shown(Date(2024, 3, 1), Date(2024, 3, 31), [trip], [spend], 50.0, 40.0)
      && Summarize([trip], [spend]) == Summary(50.0, 36.25, 40.0)
  {
    var day := Date(2024, 3, 10);
    assert Iso(day) == "2024-03-10";
    SingleDayReport(day, Date(2024, 3, 1), Date(2024, 3, 31), today,
                    Trip("2024-03-10", None, None, 50.0, Some("")), Expense("2024-03-10", Gas, Some(""), 40.0));
  }

  /**
   * "Generate IRS PDF" renders the rows and the period the page shows: the
   * summary figures of the report are the page's own metrics.
   */
  lemma PdfMatchesPage(trips: seq<Trip>, expenses: seq<Expense>, quick: string,
                       customStart: Date, customEnd: Date, today: Date, v: ReportsView)
    requires ValidDate(customStart) && ValidDate(customEnd) && ValidDate(today)
    requires v == ShowReports(trips, expenses, quick, customStart, customEnd, today) && v.Shown?
    ensures var body := ReportBody(v.trips, v.expenses, v.start, v.end);
      && |body| > 6
      && body[2] == Figure("Total miles", Quantity(v.miles))
      && body[3] == Figure("IRS deduction ($0.725/mile)", Money(v.miles * IrsRatePerMile))
      && body[4] == Figure("Total expenses", Money(v.expenseTotal))
  {
    ShownFigures(v);
  }

  /** The report of a shown view, whose metrics are its rows' totals, carries those metrics. */
  lemma ShownFigures(v: ReportsView)
    requires v.Shown? && ValidDate(v.start) && ValidDate(v.end)
    requires v.miles == TotalMiles(v.trips) && v.expenseTotal == TotalExpenses(v.expenses)
    ensures var body := ReportBody(v.trips, v.expenses, v.start, v.end);
      && |body| > 6
      && body[2] == Figure("Total miles", Quantity(v.miles))
      && body[3] == Figure("IRS deduction ($0.725/mile)", Money(v.miles * IrsRatePerMile))
      && body[4] == Figure("Total expenses", Money(v.expenseTotal))
  {
    ReportFigures(v.trips, v.expenses, v.start, v.end);
  }
}
