/**
 * The body of the IRS PDF as a list of lines: the reporting period, the
 * summary figures, the trip table and the expense table. Fonts, cell widths,
 * page breaks, the header and footer and number formatting belong to the PDF
 * library and are not part of the lines.
 */
module PdfReport {
  import opened Outcomes
  import opened Calendar
  import opened IsoDate
  import opened Records

  /** One table cell or figure value; numbers are kept as numbers, not formatted text. */
  datatype Cell = Text(text: string) | Quantity(amount: real) | Money(dollars: real)

  /** One line of the report body. */
  datatype Line = Para(text: string) | Heading(title: string) | Figure(caption: string, value: Cell) | Row(cells: seq<Cell>)

  const NoTrips := "No trips recorded."
  const NoExpenses := "No expenses recorded."
  /** Notes and descriptions are cut to this many characters. */
  const CellWidth := 70

  const TripHeader := Row([Text("Date"), Text("Miles"), Text("Notes")])
  const ExpenseHeader := Row([Text("Date"), Text("Category"), Text("Amount"), Text("Description")])

  /** `(value or "")[:70]`. */
  function Clip(value: Option<string>): (r: string)
    ensures value.None? ==> r == ""
    ensures value.Some? ==> |r| == (if |value.value| < CellWidth then |value.value| else CellWidth)
    ensures value.Some? ==> r == value.value[..|r|]
  {
    if value.None? then ""
    else if |value.value| <= CellWidth then value.value
    else value.value[..CellWidth]
  }

  function TripRow(t: Trip): Line {
    Row([Text(t.tripDate), Quantity(t.miles), Text(Clip(t.notes))])
  }

  function ExpenseRow(x: Expense): Line {
    Row([Text(x.expenseDate), Text(CategoryLabel(x.category)), Money(x.amount), Text(Clip(x.description))])
  }

  /** One row per trip, in the order of the list. */
  function TripRows(trips: seq<Trip>): seq<Line>
    decreases |trips|
  {
    if trips == [] then [] else TripRows(trips[..|trips| - 1]) + [TripRow(trips[|trips| - 1])]
  }

  /** One row per expense, in the order of the list. */
  function ExpenseRows(expenses: seq<Expense>): seq<Line>
    decreases |expenses|
  {
    if expenses == [] then [] else ExpenseRows(expenses[..|expenses| - 1]) + [ExpenseRow(expenses[|expenses| - 1])]
  }

  /** The "Trip Log" section under its heading: the placeholder, or the header and the rows. */
  function TripSection(trips: seq<Trip>): seq<Line> {
    if trips == [] then [Para(NoTrips)] else [TripHeader] + TripRows(trips)
  }

  /** The "Expenses" section under its heading. */
  function ExpenseSection(expenses: seq<Expense>): seq<Line> {
    if expenses == [] then [Para(NoExpenses)] else [ExpenseHeader] + ExpenseRows(expenses)
  }

  /** The lines before the trip table: period, summary figures and the "Trip Log" heading. */
  function Preamble(trips: seq<Trip>, expenses: seq<Expense>, start: Date, end: Date): seq<Line>
    requires ValidDate(start) && ValidDate(end)
  {
    var summary := Summarize(trips, expenses);
    [ Para("Reporting period: " + Iso(start) + " to " + Iso(end)),
      Heading("Summary"),
      Figure("Total miles", Quantity(summary.totalMiles)),
      Figure("IRS deduction ($0.725/mile)", Money(summary.deduction)),
      Figure("Total expenses", Money(summary.totalExpenses)),
      Heading("Trip Log") ]
  }

  /** The whole report body, top to bottom. */
  function ReportBody(trips: seq<Trip>, expenses: seq<Expense>, start: Date, end: Date): seq<Line>
    requires ValidDate(start) && ValidDate(end)
  {
    Preamble(trips, expenses, start, end) + TripSection(trips) + [Heading("Expenses")] + ExpenseSection(expenses)
  }

  /**
   * generate_irs_pdf: writes the preamble, the trip table under "Trip Log"
   * and the expense table under "Expenses".
   */
  method RenderReport(trips: seq<Trip>, expenses: seq<Expense>, start: Date, end: Date) returns (lines: seq<Line>)
    requires ValidDate(start) && ValidDate(end)
    ensures lines == ReportBody(trips, expenses, start, end)
  {
    var tripLines := RenderTrips(trips);
    var expenseLines := RenderExpenses(expenses);
    lines := Preamble(trips, expenses, start, end) + tripLines + [Heading("Expenses")] + expenseLines;
  }

  /** The trip table: the placeholder, or the header and then one row per trip as the loop visits them. */
  method RenderTrips(trips: seq<Trip>) returns (lines: seq<Line>)
    ensures lines == TripSection(trips)
  {
    if trips == [] {
      return [Para(NoTrips)];
    }
    lines := [TripHeader];
    var i := 0;
    while i < |trips|
      invariant 0 <= i <= |trips|
      invariant lines == [TripHeader] + TripRows(trips[..i])
    {
      assert trips[..i + 1][..i] == trips[..i];
      lines := lines + [TripRow(trips[i])];
      i := i + 1;
    }
    assert trips[..i] == trips;
  }

  /** The expense table, written the same way. */
  method RenderExpenses(expenses: seq<Expense>) returns (lines: seq<Line>)
    ensures lines == ExpenseSection(expenses)
  {
    if expenses == [] {
      return [Para(NoExpenses)];
    }
    lines := [ExpenseHeader];
    var i := 0;
    while i < |expenses|
      invariant 0 <= i <= |expenses|
      invariant lines == [ExpenseHeader] + ExpenseRows(expenses[..i])
    {
      assert expenses[..i + 1][..i] == expenses[..i];
      lines := lines + [ExpenseRow(expenses[i])];
      i := i + 1;
    }
    assert expenses[..i] == expenses;
  }

  // ---------------------------------------------------------------------------
  // Shape of the report

  /** Row k of the trip table is the row of trip k: one row per record, in input order. */
  lemma {:induction false} TripRowsAt(trips: seq<Trip>)
    ensures |TripRows(trips)| == |trips|
    ensures forall k :: 0 <= k < |trips| ==> TripRows(trips)[k] == TripRow(trips[k])
    decreases |trips|
  {
    if trips != [] {
      TripRowsAt(trips[..|trips| - 1]);
    }
  }

  lemma {:induction false} ExpenseRowsAt(expenses: seq<Expense>)
    ensures |ExpenseRows(expenses)| == |expenses|
    ensures forall k :: 0 <= k < |expenses| ==> ExpenseRows(expenses)[k] == ExpenseRow(expenses[k])
    decreases |expenses|
  {
    if expenses != [] {
      ExpenseRowsAt(expenses[..|expenses| - 1]);
    }
  }

  /**
   * The trip section is the placeholder alone when there are no trips, and
   * otherwise the header followed by exactly one row per trip, in order.
   */
  lemma TripSectionShape(trips: seq<Trip>)
    ensures trips == [] ==> TripSection(trips) == [Para(NoTrips)]
    ensures trips != [] ==> && |TripSection(trips)| == |trips| + 1
                            && TripSection(trips)[0] == TripHeader
                            && (forall k :: 0 <= k < |trips| ==> TripSection(trips)[k + 1] == TripRow(trips[k]))
  {
    TripRowsAt(trips);
  }

  lemma ExpenseSectionShape(expenses: seq<Expense>)
    ensures expenses == [] ==> ExpenseSection(expenses) == [Para(NoExpenses)]
    ensures expenses != [] ==> && |ExpenseSection(expenses)| == |expenses| + 1
                               && ExpenseSection(expenses)[0] == ExpenseHeader
                               && (forall k :: 0 <= k < |expenses| ==> ExpenseSection(expenses)[k + 1] == ExpenseRow(expenses[k]))
  {
    ExpenseRowsAt(expenses);
  }

  /**
   * The summary lines carry the totals of the listed rows and the deduction
   * at 0.725 dollars per mile.
   */
  lemma ReportFigures(trips: seq<Trip>, expenses: seq<Expense>, start: Date, end: Date)
    requires ValidDate(start) && ValidDate(end)
    ensures var body := ReportBody(trips, expenses, start, end);
      && |body| > 6
      && body[2] == Figure("Total miles", Quantity(TotalMiles(trips)))
      && body[3] == Figure("IRS deduction ($0.725/mile)", Money(TotalMiles(trips) * IrsRatePerMile))
      && body[4] == Figure("Total expenses", Money(TotalExpenses(expenses)))
  {
    var pre := Preamble(trips, expenses, start, end);
    var rest := TripSection(trips) + [Heading("Expenses")] + ExpenseSection(expenses);
    assert ReportBody(trips, expenses, start, end) == pre + rest;
    assert (pre + rest)[2] == pre[2] && (pre + rest)[3] == pre[3] && (pre + rest)[4] == pre[4];
  }

  /** Every line is a table row. */
  predicate RowsOnly(lines: seq<Line>) {
    forall k :: 0 <= k < |lines| ==> lines[k].Row?
  }

  /** A non-empty section holds table rows only. */
  lemma SectionsAreRows(trips: seq<Trip>, expenses: seq<Expense>)
    ensures trips != [] ==> RowsOnly(TripSection(trips))
    ensures expenses != [] ==> RowsOnly(ExpenseSection(expenses))
  {
    TripSectionShape(trips);
    ExpenseSectionShape(expenses);
    var ts, es := TripSection(trips), ExpenseSection(expenses);
    if trips != [] {
      forall k | 1 <= k < |ts| ensures ts[k].Row? {
        assert ts[(k - 1) + 1] == TripRow(trips[k - 1]);
      }
    }
    if expenses != [] {
      forall k | 1 <= k < |es| ensures es[k].Row? {
        assert es[(k - 1) + 1] == ExpenseRow(expenses[k - 1]);
      }
    }
  }

  /** The six lines before the trip table hold no row and no placeholder. */
  lemma PreambleLines(trips: seq<Trip>, expenses: seq<Expense>, start: Date, end: Date)
    requires ValidDate(start) && ValidDate(end)
    ensures var pre := Preamble(trips, expenses, start, end);
      && |pre| == 6
      && (forall k :: 0 <= k < 6 ==> !pre[k].Row?)
      && Para(NoTrips) !in pre && Para(NoExpenses) !in pre
  {
    var pre := Preamble(trips, expenses, start, end);
    assert pre[0].text[0] == 'R';
  }

  /** Each placeholder appears in the report exactly when its list is empty. */
  lemma PlaceholdersExactlyWhenEmpty(trips: seq<Trip>, expenses: seq<Expense>, start: Date, end: Date)
    requires ValidDate(start) && ValidDate(end)
    ensures Para(NoTrips) in ReportBody(trips, expenses, start, end) <==> trips == []
    ensures Para(NoExpenses) in ReportBody(trips, expenses, start, end) <==> expenses == []
  {
    PreambleLines(trips, expenses, start, end);
    SectionsAreRows(trips, expenses);
    assert NoTrips[3] != NoExpenses[3];
    var pre, ts, es := Preamble(trips, expenses, start, end), TripSection(trips), ExpenseSection(expenses);
    assert ReportBody(trips, expenses, start, end) == pre + ts + [Heading("Expenses")] + es;
    assert Para(NoTrips) !in es && Para(NoExpenses) !in ts;
  }

  /** The number of table rows among the lines. */
  function CountRows(lines: seq<Line>): nat
    decreases |lines|
  {
    if lines == [] then 0 else (if lines[0].Row? then 1 else 0) + CountRows(lines[1..])
  }

  lemma {:induction false} CountRowsAppend(a: seq<Line>, b: seq<Line>)
    ensures CountRows(a + b) == CountRows(a) + CountRows(b)
    decreases |a|
  {
    if a == [] {
      assert a + b == b;
    } else {
      assert (a + b)[1..] == a[1..] + b;
      CountRowsAppend(a[1..], b);
    }
  }

  /** Lines that are all rows count in full; lines that hold none count zero. */
  lemma {:induction false} CountRowsBounds(lines: seq<Line>)
    ensures RowsOnly(lines) ==> CountRows(lines) == |lines|
    ensures (forall k :: 0 <= k < |lines| ==> !lines[k].Row?) ==> CountRows(lines) == 0
    decreases |lines|
  {
    if lines != [] {
      CountRowsBounds(lines[1..]);
    }
  }

  /** A section's rows: none for the placeholder, otherwise the header and one per record. */
  lemma SectionRowCounts(trips: seq<Trip>, expenses: seq<Expense>)
    ensures CountRows(TripSection(trips)) == if trips == [] then 0 else |trips| + 1
    ensures CountRows(ExpenseSection(expenses)) == if expenses == [] then 0 else |expenses| + 1
  {
    TripSectionShape(trips);
    ExpenseSectionShape(expenses);
    SectionsAreRows(trips, expenses);
    CountRowsBounds(TripSection(trips));
    CountRowsBounds(ExpenseSection(expenses));
  }

  /**
   * The report holds one table row per trip and per expense, plus one header
   * row for each table that is not empty.
   */
  lemma ReportRowCount(trips: seq<Trip>, expenses: seq<Expense>, start: Date, end: Date)
    requires ValidDate(start) && ValidDate(end)
    ensures CountRows(ReportBody(trips, expenses, start, end))
      == (if trips == [] then 0 else |trips| + 1) + (if expenses == [] then 0 else |expenses| + 1)
  {
    var pre, ts, es := Preamble(trips, expenses, start, end), TripSection(trips), ExpenseSection(expenses);
    PreambleLines(trips, expenses, start, end);
    CountRowsBounds(pre);
    CountRowsBounds([Heading("Expenses")]);
    SectionRowCounts(trips, expenses);
    CountRowsAppend(pre + ts + [Heading("Expenses")], es);
    CountRowsAppend(pre + ts, [Heading("Expenses")]);
    CountRowsAppend(pre, ts);
  }
}
