# Spark Driver mileage and expense tracker — verified model of the reporting core

The tracker is a single-user Streamlit app. A driver logs trips (date, odometer
readings, miles, notes) and expenses (date, category, amount, description).
The dashboard shows total miles, the IRS mileage deduction at 0.725 dollars per mile
and total expenses. The reports page picks a period, either two custom dates or
a quick range ("This Week (Mon-Sun)", "This Month", "This Year"). It keeps the
trips and expenses dated inside that period, shows their totals and renders
an IRS PDF report over them.

This Dafny project models that core:

- `Calendar` (calendar.dfy) covers the calendar that Python's `datetime.date` uses:
  - the proleptic Gregorian calendar for the years 1 to 9999
  - day numbers and the weekday, with Monday = 0
  - `date + timedelta(days = n)`, including its OverflowError past 9999-12-31 or before 0001-01-01
- `IsoDate` (isodate.dfy) covers the `YYYY-MM-DD` text that dates are stored as. This is the extended calendar format of section 4.1.2.2 of ISO 8601:2004. It also models Python's code-point order on strings, which the period filter uses.
- `QuickRange` (quickrange.dfy) models `get_quick_range`. Today's date is a parameter.
- `Records` (records.dfy) covers:
  - trip and expense rows and the expense categories
  - the inclusive period filter
  - the sums and the deduction
- `Entry` (entry.dfy) covers:
  - the checks "Save Trip" and "Save Expense" make
  - the row each save inserts
  - a `Ledger` class holding the two tables, which successful saves append to
- `PdfReport` (report.dfy) models the body of `generate_irs_pdf` as a list of lines. A method writes the two tables in loops.
- `ReportsPage` (reportspage.dfy) models `show_reports`: choosing the period, filtering, the page totals, and the rows and period handed to the PDF.
- `Outcomes` (outcomes.dfy) holds `Option` and `Result`.

Two edge cases of the code are modelled as written:

- Trip miles are only checked against 0, so a negative entry is saved as typed (`Entry.NegativeMilesAccepted`).
- In December 9999, `date(9999, 12, 28) + timedelta(days=4)` raises OverflowError, so "This Month" fails there. The model returns `Err(DateOverflow)` (`QuickRange.MonthRange`). "This Week (Mon-Sun)" fails when its Sunday would fall after 9999-12-31 (`QuickRange.WeekRange`).

## Model

| member | source | states |
|---|---|---|
| `Calendar.Weekday` | streamlit_app.py:300 | `today.weekday()` is in 0..6 (Monday = 0) |
| `Calendar.FirstDayIsMonday` | streamlit_app.py:300 | `weekday()` numbers Monday 0: 0001-01-01 and 2024-03-11 are Mondays |
| `Calendar.AddDays` | streamlit_app.py:300-305 | `date + timedelta(days=n)`: when it succeeds, the result is a representable date exactly n days later |
| `Calendar.AddDaysFails` | streamlit_app.py:300-305 | `date + timedelta` fails (OverflowError) exactly when the target day number is outside 0001-01-01..9999-12-31 |
| `Calendar.AddDaysExact` | streamlit_app.py:300-305 | any representable date n days after d is the one `d + timedelta(days=n)` returns |
| `Calendar.WeekdayShift` | streamlit_app.py:300-301 | dates n days apart have weekdays n apart, modulo 7 |
| `Calendar.OrdinalOrder` | streamlit_app.py:333-334 | for representable dates, calendar order is day-number order, and equal day numbers mean equal dates |
| `IsoDate.Iso` | streamlit_app.py:259 | `isoformat()` gives 10 characters with `-` at positions 4 and 7 |
| `IsoDate.IsoOrder` | streamlit_app.py:333-334 | comparing two dates' ISO texts as strings is the same as comparing the dates: `iso(a) <= iso(b)` iff `a <= b` |
| `IsoDate.IsoInjective` | streamlit_app.py:290 | distinct dates are stored as distinct texts |
| `QuickRange.GetQuickRange` | streamlit_app.py:297-311 | every range that resolves has representable start and end dates |
| `QuickRange.MondayOf` | streamlit_app.py:300 | `today - timedelta(days=today.weekday())`, when it succeeds, is weekday() days before today |
| `QuickRange.WeekRange` | streamlit_app.py:299-301 | "This Week (Mon-Sun)" resolves iff the Sunday is representable. Start is a Monday, end is a Sunday six days later, and start <= today <= end |
| `QuickRange.WeekStart` | streamlit_app.py:300 | the Monday on or before today always exists, is weekday() days back and is not after today |
| `QuickRange.MonthRange` | streamlit_app.py:302-305 | "This Month" resolves unless today is in December 9999. It runs from day 1 to the true last day of today's month, with 29 for a leap February |
| `QuickRange.MonthEnd` | streamlit_app.py:304-305 | day 28 plus 4 days, snapped to day 1 and minus 1 day, is the last day of the month |
| `QuickRange.MonthOverflow` | streamlit_app.py:304 | in December 9999 the day-28-plus-4 probe overflows |
| `QuickRange.NextMonthStart` | streamlit_app.py:304-305 | day 28 plus 4 days lands in the next month, on day 32 minus the month's length |
| `QuickRange.YearRange` | streamlit_app.py:306-308 | "This Year" is January 1 to December 31 of today's year |
| `QuickRange.OtherRange` | streamlit_app.py:309-310 | any other name gives today as both start and end |
| `QuickRange.QuickRangeContainsToday` | streamlit_app.py:297-311 | every quick range that resolves satisfies start <= today <= end |
| `QuickRange.QuickRangeResolves` | streamlit_app.py:297-311 | before the year 9999 every quick range resolves |
| `QuickRange.FebruaryEnds` | streamlit_app.py:302-305 | February 2024 ends on the 29th and February 2023 on the 28th |
| `Records.Filter` | streamlit_app.py:333-334 | a boolean mask keeps a row iff the row is in the input and passes the test, and keeps no more rows than the input has |
| `Records.FilterMultiplicity` | streamlit_app.py:333-334 | a kept row occurs in the result as often as in the input, a dropped row not at all, so identical rows are kept or dropped together |
| `Records.FilterIsSubsequence` | streamlit_app.py:333-334 | the kept rows are an order-preserving subsequence of the input |
| `Records.FilterAppend` | streamlit_app.py:333-334 | masking a concatenation masks each part |
| `Records.TripsInPeriod` | streamlit_app.py:333 | keeps a trip iff `start.isoformat() <= trip_date <= end.isoformat()`, in input order |
| `Records.ExpensesInPeriod` | streamlit_app.py:334 | keeps an expense iff `start.isoformat() <= expense_date <= end.isoformat()`, in input order |
| `Records.InPeriodIsCalendarOrder` | streamlit_app.py:333-334 | for a date stored by `isoformat()`, the string test is the calendar test start <= d <= end |
| `Records.PeriodBoundaries` | streamlit_app.py:333-334 | both ends are included; the day after the end and the day before the start are not |
| `Records.InvertedPeriodSelectsNothing` | streamlit_app.py:333-334 | with start after end, no trip and no expense is kept |
| `Records.PeriodOfConcatenation` | streamlit_app.py:333 | filtering two lists joined is filtering each in turn |
| `Records.SumSingle` | streamlit_app.py:336-337 | the sum over one row is that row's value |
| `Records.SumAppend` | streamlit_app.py:336-337 | the sum over two lists joined is the sum of their sums |
| `Records.SumPositive` | streamlit_app.py:337 | a sum of positive amounts is 0 exactly for the empty list, and never negative |
| `Records.FilteredSumBounded` | streamlit_app.py:337 | with positive values, a masked sum is between 0 and the full sum, and 0 iff nothing is kept |
| `Records.Summarize` | streamlit_app.py:214-216 | the deduction is total miles times 0.725 |
| `Records.SummaryOfNothing` | streamlit_app.py:131-133 | no trips and no expenses give 0 miles, a 0 deduction and 0 expenses |
| `Records.SummaryAddsTrip` | streamlit_app.py:214-215 | one more trip adds its miles to the total and 0.725 dollars per mile to the deduction, and leaves expenses alone |
| `Records.SummaryAddsExpense` | streamlit_app.py:216 | one more expense adds its amount to the expense total and leaves miles alone |
| `Records.PeriodExpensesBounded` | streamlit_app.py:334-337 | with positive amounts, the period's expense total is between 0 and the all-time total, and 0 iff the period has no expense |
| `Entry.OdometerReading` | streamlit_app.py:260-261 | a reading is stored as absent iff it is <= 0, and as given otherwise |
| `Entry.PrepareTrip` | streamlit_app.py:250-262 | refused (MissingMiles) iff miles == 0 and end <= start. Miles == 0 with end > start stores end - start; other miles are stored unchanged. The date is stored as `isoformat()` and notes as typed. Every saved trip satisfies the store invariant |
| `Entry.PrepareExpense` | streamlit_app.py:284-290 | refused (InvalidAmount) iff amount <= 0; otherwise the row holds the ISO date, the category, the description and the amount |
| `Entry.OdometerMilesConsistent` | streamlit_app.py:250-261 | when miles come from the odometer and the start reading is stored, start plus miles equals the stored end |
| `Entry.NegativeMilesAccepted` | streamlit_app.py:245-262 | a negative miles entry is saved unchanged, because only 0 is refused |
| `Entry.Ledger.constructor` | streamlit_app.py:36-59 | the two tables start empty, and the store invariant holds |
| `Entry.Ledger.SaveTrip` | streamlit_app.py:249-265 | on success exactly the prepared trip is appended, on refusal nothing is inserted; expenses are untouched and the invariant is kept |
| `Entry.Ledger.SaveExpense` | streamlit_app.py:283-290 | on success exactly the prepared expense is appended, on refusal nothing is inserted; trips are untouched and the invariant is kept |
| `Entry.SavedExpensesBounded` | streamlit_app.py:284-286 | over saved expenses, a period's expense total is between 0 and the all-time total, and 0 iff the period is empty |
| `Entry.SavedTripSelectedByCalendar` | streamlit_app.py:259 | a saved trip is kept by the period filter iff its calendar date lies in the period |
| `PdfReport.Clip` | streamlit_app.py:161 | `(value or "")[:70]` is "" for a missing value, otherwise the prefix of length min(len, 70) |
| `PdfReport.RenderReport` | streamlit_app.py:123-183 | the lines written are the report body: period line, summary, trip section, "Expenses" heading, expense section |
| `PdfReport.RenderTrips` | streamlit_app.py:149-161 | the trip loop writes the placeholder for no trips, otherwise the header then one row per trip in order |
| `PdfReport.RenderExpenses` | streamlit_app.py:169-183 | the expense loop writes the placeholder for no expenses, otherwise the header then one row per expense in order |
| `PdfReport.TripRowsAt` | streamlit_app.py:158-161 | trip row k is the row of trip k, one per trip |
| `PdfReport.ExpenseRowsAt` | streamlit_app.py:179-183 | expense row k is the row of expense k, one per expense |
| `PdfReport.TripSectionShape` | streamlit_app.py:149-161 | no trips: only "No trips recorded."; otherwise the header followed by exactly one row per trip, in input order |
| `PdfReport.ExpenseSectionShape` | streamlit_app.py:169-183 | no expenses: only "No expenses recorded."; otherwise the header followed by exactly one row per expense, in input order |
| `PdfReport.SectionsAreRows` | streamlit_app.py:151-161 | a non-empty section holds only table rows |
| `PdfReport.PreambleLines` | streamlit_app.py:129-146 | the lines before the trip table are six and hold no table row and no placeholder |
| `PdfReport.ReportFigures` | streamlit_app.py:131-141 | the summary shows the listed trips' total miles, that total times 0.725, and the listed expenses' total |
| `PdfReport.PlaceholdersExactlyWhenEmpty` | streamlit_app.py:149-170 | each placeholder line is in the report iff its list is empty |
| `PdfReport.CountRowsAppend` | streamlit_app.py:123-183 | the rows of two line lists joined are the rows of each |
| `PdfReport.CountRowsBounds` | streamlit_app.py:123-183 | lines that are all rows count in full; lines with no row count 0 |
| `PdfReport.SectionRowCounts` | streamlit_app.py:149-183 | an empty section has no row; otherwise it has one row per record plus the header |
| `PdfReport.ReportRowCount` | streamlit_app.py:149-183 | the report has one row per trip and per expense, plus a header row per non-empty table. With no data there are no rows at all |
| `ReportsPage.ShowReports` | streamlit_app.py:314-337 | "No data yet." iff both tables are empty. "Custom" uses the two inputs. A quick range fails on the page iff `get_quick_range` fails, with its error, and otherwise the page uses exactly its start and end. The shown rows are the period filter of each table, so every in-period row with its multiplicity, in order, and the metrics are their totals |
| `ReportsPage.QuickRangeKeepsToday` | streamlit_app.py:329-333 | with a quick range, a trip dated today is always among the reported trips |
| `ReportsPage.RangeResolvesBeforeLastYear` | streamlit_app.py:326-330 | before the year 9999 the page always resolves its period |
| `ReportsPage.InvertedCustomRange` | streamlit_app.py:326-337 | a custom range with end before start shows no rows and zero totals, not an error |
| `ReportsPage.SingleDayReport` | streamlit_app.py:326-337 | a trip and an expense dated inside a custom range are both reported, with their own totals |
| `ReportsPage.MarchExample` | streamlit_app.py:333-337 | a 50-mile trip and a 40-dollar expense on 2024-03-10, reported for March 2024, give 50 miles, 40 dollars and a 36.25-dollar deduction |
| `ReportsPage.PdfMatchesPage` | streamlit_app.py:336-340 | for the view `show_reports` computes, the PDF built from its rows and period has the page's miles, that times 0.725, and the page's expense total as its summary figures |

## Left out

- The "Download PDF" button, its file name and MIME type: delivery of the bytes only.
- The Streamlit UI: page layout, navigation, session state, the login form and its fixed credentials, success and info messages, and the dashboard's "Recent" tables (`head(20)`). These are display and session glue.
- `date.today()` and the values of the date inputs are parameters. The inputs' default values ("Custom" starts at January 1 of this year) are UI defaults, not logic.
- SQLite is not modelled. The store is the `Entry.Ledger` class with one sequence per table, and a save appends. Row ids, `created_at` timestamps and the loads' `ORDER BY date DESC, id DESC` are not modelled. The lists given to the filter and the report stand for whatever order the loads return, and both keep that order.
- Uploaded odometer photos and receipts are opaque bytes with no logic.
- pandas frames are sequences of records. A column sum is `Records.Sum`.
- The PDF library: fonts, cell widths, borders, page breaks, the header title, the "Generated on" footer with the current time, latin-1 encoding and the byte output. The report is the sequence of lines it draws.
- Number formatting (`:.2f`, `:,.2f`, `:.1f`) is not modelled. Figures and cells hold the numbers themselves.
- Floating point: miles and amounts are exact reals, so float rounding in the sums and in `miles * 0.725` is not modelled.
- `Records.Category`: the category column is a text column. The model stores one of the seven categories the form offers and prints its label, so rows with other category text (written outside the app) are not modelled.
- Python's `datetime` library is not part of this model. Its calendar arithmetic is re-stated in `Calendar` from the proleptic Gregorian rules.
