/**
 * The stored rows (the `trips` and `expenses` tables, loaded as lists), the
 * inclusive date-range filter of the reports page, and the sums behind the
 * dashboard, the reports page and the PDF summary.
 */
module Records {
  import opened Outcomes
  import opened Calendar
  import opened IsoDate

  /** IRS standard mileage rate, dollars per mile. */
  const IrsRatePerMile: real := 0.725

  /** The expense categories offered when an expense is logged. */
  datatype Category = Gas | Maintenance | ParkingTolls | CarWash | Supplies | PhoneInternet | Other

  /** The text stored in the `category` column and printed in the report. */
  function CategoryLabel(c: Category): string {
    match c
    case Gas => "Gas"
    case Maintenance => "Maintenance"
    case ParkingTolls => "Parking/Tolls"
    case CarWash => "Car Wash"
    case Supplies => "Supplies"
    case PhoneInternet => "Phone/Internet"
    case Other => "Other"
  }

  /** A row of `trips`: the date as stored text, optional odometer readings, miles, optional notes. */
  datatype Trip = Trip(tripDate: string, startOdometer: Option<real>, endOdometer: Option<real>,
                       miles: real, notes: Option<string>)

  /** A row of `expenses`. */
  datatype Expense = Expense(expenseDate: string, category: Category, description: Option<string>, amount: real)

  // ---------------------------------------------------------------------------
  // Selecting rows

  /** The rows of s for which keep holds, in their original order (a boolean mask over a frame). */
  function Filter<T(==,!new)>(s: seq<T>, keep: T -> bool): (r: seq<T>)
    ensures |r| <= |s|
    ensures forall x :: x in r <==> x in s && keep(x)
  {
    if s == [] then []
    else (if keep(s[0]) then [s[0]] else []) + Filter(s[1..], keep)
  }

  /** r can be obtained from s by deleting elements, the rest keeping their order. */
  predicate IsSubsequence<T(==)>(r: seq<T>, s: seq<T>)
    decreases |s|
  {
    if r == [] then true
    else if s == [] then false
    else (r[0] == s[0] && IsSubsequence(r[1..], s[1..])) || IsSubsequence(r, s[1..])
  }

  lemma {:induction false} FilterIsSubsequence<T(!new)>(s: seq<T>, keep: T -> bool)
    ensures IsSubsequence(Filter(s, keep), s)
    decreases |s|
  {
    if s != [] {
      FilterIsSubsequence(s[1..], keep);
      var r := Filter(s, keep);
      if keep(s[0]) {
        assert r[0] == s[0] && r[1..] == Filter(s[1..], keep);
      } else {
        assert r == Filter(s[1..], keep);
      }
    }
  }

  /** A kept row occurs as often as in the input, a dropped one not at all: duplicates are kept alike. */
  lemma {:induction false} FilterMultiplicity<T(!new)>(s: seq<T>, keep: T -> bool)
    ensures forall x :: multiset(Filter(s, keep))[x] == if keep(x) then multiset(s)[x] else 0
    decreases |s|
  {
    if s != [] {
      FilterMultiplicity(s[1..], keep);
      assert s == [s[0]] + s[1..];
      assert Filter(s, keep) == (if keep(s[0]) then [s[0]] else []) + Filter(s[1..], keep);
    }
  }

  lemma {:induction false} FilterAppend<T(!new)>(a: seq<T>, b: seq<T>, keep: T -> bool)
    ensures Filter(a + b, keep) == Filter(a, keep) + Filter(b, keep)
    decreases |a|
  {
    if a == [] {
      assert a + b == b;
    } else {
      assert (a + b)[0] == a[0] && (a + b)[1..] == a[1..] + b;
      FilterAppend(a[1..], b, keep);
    }
  }

  /** When no row passes, nothing is kept; when every row passes, everything is. */
  lemma {:induction false} FilterNone<T(!new)>(s: seq<T>, keep: T -> bool)
    requires forall i :: 0 <= i < |s| ==> !keep(s[i])
    ensures Filter(s, keep) == []
    decreases |s|
  {
    if s != [] {
      FilterNone(s[1..], keep);
      assert !keep(s[0]);
      assert Filter(s, keep) == [] + Filter(s[1..], keep);
    }
  }

  lemma {:induction false} FilterAll<T(!new)>(s: seq<T>, keep: T -> bool)
    requires forall i :: 0 <= i < |s| ==> keep(s[i])
    ensures Filter(s, keep) == s
    decreases |s|
  {
    if s != [] {
      FilterAll(s[1..], keep);
      assert keep(s[0]);
      assert Filter(s, keep) == [s[0]] + Filter(s[1..], keep);
      assert s == [s[0]] + s[1..];
    }
  }

  /** The inclusive mask `start.isoformat() <= d <= end.isoformat()` on a stored date text. */
  predicate InPeriod(text: string, start: Date, end: Date)
    requires ValidDate(start) && ValidDate(end)
  {
    StrLe(Iso(start), text) && StrLe(text, Iso(end))
  }

  /** The reports page's `t`: trips whose date lies in [start, end]. */
  function TripsInPeriod(trips: seq<Trip>, start: Date, end: Date): (r: seq<Trip>)
    requires ValidDate(start) && ValidDate(end)
    ensures forall t :: t in r <==> t in trips && InPeriod(t.tripDate, start, end)
    ensures IsSubsequence(r, trips)
  {
    FilterIsSubsequence(trips, (t: Trip) => InPeriod(t.tripDate, start, end));
    Filter(trips, (t: Trip) => InPeriod(t.tripDate, start, end))
  }

  /** The reports page's `e`: expenses whose date lies in [start, end]. */
  function ExpensesInPeriod(expenses: seq<Expense>, start: Date, end: Date): (r: seq<Expense>)
    requires ValidDate(start) && ValidDate(end)
    ensures forall x :: x in r <==> x in expenses && InPeriod(x.expenseDate, start, end)
    ensures IsSubsequence(r, expenses)
  {
    FilterIsSubsequence(expenses, (x: Expense) => InPeriod(x.expenseDate, start, end));
    Filter(expenses, (x: Expense) => InPeriod(x.expenseDate, start, end))
  }

  /** For a date stored as ISO text, the string mask is the calendar test start <= d <= end. */
  lemma InPeriodIsCalendarOrder(d: Date, start: Date, end: Date)
    requires ValidDate(d) && ValidDate(start) && ValidDate(end)
    ensures InPeriod(Iso(d), start, end) <==> DateLe(start, d) && DateLe(d, end)
  {
    IsoOrder(start, d);
    IsoOrder(d, end);
  }

  /** Both ends are included, and the day after the end is not. */
  lemma PeriodBoundaries(start: Date, end: Date)
    requires ValidDate(start) && ValidDate(end) && DateLe(start, end)
    ensures InPeriod(Iso(start), start, end) && InPeriod(Iso(end), start, end)
    ensures NextDay(end).Some? ==> !InPeriod(Iso(NextDay(end).value), start, end)
    ensures PrevDay(start).Some? ==> !InPeriod(Iso(PrevDay(start).value), start, end)
  {
    InPeriodIsCalendarOrder(start, start, end);
    InPeriodIsCalendarOrder(end, start, end);
    if NextDay(end).Some? {
      var after := NextDay(end).value;
      InPeriodIsCalendarOrder(after, start, end);
      OrdinalOrder(after, end);
    }
    if PrevDay(start).Some? {
      var before := PrevDay(start).value;
      InPeriodIsCalendarOrder(before, start, end);
      OrdinalOrder(start, before);
    }
  }

  /** With start after end no text lies between them. */
  lemma InvertedPeriodEmpty(text: string, start: Date, end: Date)
    requires ValidDate(start) && ValidDate(end) && DateLt(end, start)
    ensures !InPeriod(text, start, end)
  {
    if InPeriod(text, start, end) {
      StrLeTransitive(Iso(start), text, Iso(end));
      IsoOrder(start, end);
    }
  }

  /** An inverted range selects no trip and no expense. */
  lemma InvertedPeriodSelectsNothing(trips: seq<Trip>, expenses: seq<Expense>, start: Date, end: Date)
    requires ValidDate(start) && ValidDate(end) && DateLt(end, start)
    ensures TripsInPeriod(trips, start, end) == []
    ensures ExpensesInPeriod(expenses, start, end) == []
  {
    forall i | 0 <= i < |trips| {
      InvertedPeriodEmpty(trips[i].tripDate, start, end);
    }
    FilterNone(trips, (t: Trip) => InPeriod(t.tripDate, start, end));
    forall i | 0 <= i < |expenses| {
      InvertedPeriodEmpty(expenses[i].expenseDate, start, end);
    }
    FilterNone(expenses, (x: Expense) => InPeriod(x.expenseDate, start, end));
  }

  /** Filtering the concatenation of two lists filters each list in turn. */
  lemma PeriodOfConcatenation(a: seq<Trip>, b: seq<Trip>, start: Date, end: Date)
    requires ValidDate(start) && ValidDate(end)
    ensures TripsInPeriod(a + b, start, end) == TripsInPeriod(a, start, end) + TripsInPeriod(b, start, end)
  {
    FilterAppend(a, b, (t: Trip) => InPeriod(t.tripDate, start, end));
  }

  // ---------------------------------------------------------------------------
  // Sums

  /** `frame[column].sum() if not frame.empty else 0`. */
  function Sum<T>(s: seq<T>, f: T -> real): real
    decreases |s|
  {
    if s == [] then 0.0 else f(s[0]) + Sum(s[1..], f)
  }

  lemma SumSingle<T>(x: T, f: T -> real)
    ensures Sum([x], f) == f(x)
  {
    assert [x][1..] == [];
  }

  lemma {:induction false} SumAppend<T>(a: seq<T>, b: seq<T>, f: T -> real)
    ensures Sum(a + b, f) == Sum(a, f) + Sum(b, f)
    decreases |a|
  {
    if a == [] {
      assert a + b == b;
    } else {
      assert (a + b)[0] == a[0] && (a + b)[1..] == a[1..] + b;
      SumAppend(a[1..], b, f);
    }
  }

  /**
   * With positive terms, the sum over the kept rows lies between 0 and the
   * sum over all rows, and it is 0 exactly when no row is kept.
   */
  lemma {:induction false} FilteredSumBounded<T(!new)>(s: seq<T>, keep: T -> bool, f: T -> real)
    requires forall i :: 0 <= i < |s| ==> f(s[i]) > 0.0
    ensures 0.0 <= Sum(Filter(s, keep), f) <= Sum(s, f)
    ensures Sum(Filter(s, keep), f) == 0.0 <==> Filter(s, keep) == []
    decreases |s|
  {
    if s != [] {
      FilteredSumBounded(s[1..], keep, f);
      SumPositive(s[1..], f);
      var rest := Filter(s[1..], keep);
      if keep(s[0]) {
        assert Filter(s, keep) == [s[0]] + rest;
        SumAppend([s[0]], rest, f);
      } else {
        assert Filter(s, keep) == rest;
      }
    }
  }

  /** A sum of positive terms is positive when there is one, and zero otherwise. */
  lemma {:induction false} SumPositive<T>(s: seq<T>, f: T -> real)
    requires forall i :: 0 <= i < |s| ==> f(s[i]) > 0.0
    ensures s == [] <==> Sum(s, f) == 0.0
    ensures Sum(s, f) >= 0.0
    decreases |s|
  {
    if s != [] {
      SumPositive(s[1..], f);
    }
  }

  /** Total miles over a list of trips (the `miles` column). */
  function TotalMiles(trips: seq<Trip>): real {
    Sum(trips, (t: Trip) => t.miles)
  }

  /** Total dollars over a list of expenses (the `amount` column). */
  function TotalExpenses(expenses: seq<Expense>): real {
    Sum(expenses, (x: Expense) => x.amount)
  }

  /** The three figures the dashboard shows and the PDF summary prints. */
  datatype Summary = Summary(totalMiles: real, deduction: real, totalExpenses: real)

  function Summarize(trips: seq<Trip>, expenses: seq<Expense>): (s: Summary)
    ensures s.deduction == s.totalMiles * IrsRatePerMile
  {
    var miles := TotalMiles(trips);
    Summary(miles, miles * IrsRatePerMile, TotalExpenses(expenses))
  }

  /** Empty lists give zero totals and a zero deduction. */
  lemma SummaryOfNothing()
    ensures Summarize([], []) == Summary(0.0, 0.0, 0.0)
  {
  }

  /** Logging one more trip adds its miles to the total and 0.725 dollars per mile to the deduction. */
  lemma SummaryAddsTrip(trips: seq<Trip>, expenses: seq<Expense>, t: Trip)
    ensures Summarize(trips + [t], expenses).totalMiles == Summarize(trips, expenses).totalMiles + t.miles
    ensures Summarize(trips + [t], expenses).deduction == Summarize(trips, expenses).deduction + t.miles * IrsRatePerMile
    ensures Summarize(trips + [t], expenses).totalExpenses == Summarize(trips, expenses).totalExpenses
  {
    SumAppend(trips, [t], (t: Trip) => t.miles);
  }

  /** Logging one more expense adds its amount to the expense total and leaves the miles alone. */
  lemma SummaryAddsExpense(trips: seq<Trip>, expenses: seq<Expense>, x: Expense)
    ensures Summarize(trips, expenses + [x]).totalExpenses == Summarize(trips, expenses).totalExpenses + x.amount
    ensures Summarize(trips, expenses + [x]).totalMiles == Summarize(trips, expenses).totalMiles
  {
    SumAppend(expenses, [x], (x: Expense) => x.amount);
  }

  /**
   * With positive amounts (every saved expense has one), the period's
   * expense total lies between 0 and the all-time total, and it is 0 exactly
   * when no expense falls in the period.
   */
  lemma PeriodExpensesBounded(expenses: seq<Expense>, start: Date, end: Date)
    requires ValidDate(start) && ValidDate(end)
    requires forall i :: 0 <= i < |expenses| ==> expenses[i].amount > 0.0
    ensures var inPeriod := ExpensesInPeriod(expenses, start, end);
      && 0.0 <= TotalExpenses(inPeriod) <= TotalExpenses(expenses)
      && (TotalExpenses(inPeriod) == 0.0 <==> inPeriod == [])
  {
    FilteredSumBounded(expenses, (x: Expense) => InPeriod(x.expenseDate, start, end), (x: Expense) => x.amount);
  }
}
