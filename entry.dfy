/**
 * The "Save Trip" and "Save Expense" buttons: the checks made on the form
 * values, the row each one produces, and the store that a successful save
 * appends that row to.
 */
module Entry {
  import opened Outcomes
  import opened Calendar
  import opened IsoDate
  import opened Records

  /** The values of the trip form when "Save Trip" is pressed. */
  datatype TripForm = TripForm(tripDate: Date, startOdometer: real, endOdometer: real, miles: real, notes: string)

  /** The values of the expense form when "Save Expense" is pressed. */
  datatype ExpenseForm = ExpenseForm(expenseDate: Date, category: Category, amount: real, description: string)

  /** Why a save was refused; the page shows ErrorMessage and inserts nothing. */
  datatype SaveError = MissingMiles | InvalidAmount

  function ErrorMessage(e: SaveError): string {
    match e
    case MissingMiles => "Enter miles OR valid odometer readings."
    case InvalidAmount => "Enter valid amount."
  }

  /** Text that `date.isoformat()` produced for some representable date. */
  ghost predicate IsIsoDate(text: string) {
    exists d :: ValidDate(d) && Iso(d) == text
  }

  /** What every trip row saved through the form satisfies. */
  ghost predicate StoredTrip(t: Trip) {
    && IsIsoDate(t.tripDate)
    && t.miles != 0.0
    && (t.startOdometer.Some? ==> t.startOdometer.value > 0.0)
    && (t.endOdometer.Some? ==> t.endOdometer.value > 0.0)
    && t.notes.Some?
  }

  /** What every expense row saved through the form satisfies. */
  ghost predicate StoredExpense(x: Expense) {
    IsIsoDate(x.expenseDate) && x.amount > 0.0 && x.description.Some?
  }

  /** `start if start > 0 else None`: a reading that is not positive is stored as NULL. */
  function OdometerReading(x: real): (r: Option<real>)
    ensures r.None? <==> x <= 0.0
    ensures r.Some? ==> r.value == x
  {
    if x > 0.0 then Some(x) else None
  }

  /**
   * The trip "Save Trip" inserts. Miles left at 0 fall back to the odometer
   * difference when the end reading is above the start; with neither the
   * save is refused.
   */
  function PrepareTrip(form: TripForm): (r: Result<Trip, SaveError>)
    requires ValidDate(form.tripDate)
    ensures r.Err? <==> form.miles == 0.0 && form.endOdometer <= form.startOdometer
    ensures r.Err? ==> r.error == MissingMiles
    ensures r.Ok? ==> StoredTrip(r.value)
    ensures r.Ok? && form.miles == 0.0 ==> r.value.miles == form.endOdometer - form.startOdometer
    ensures r.Ok? && form.miles != 0.0 ==> r.value.miles == form.miles
    ensures r.Ok? ==> && r.value.tripDate == Iso(form.tripDate)
                      && r.value.startOdometer == OdometerReading(form.startOdometer)
                      && r.value.endOdometer == OdometerReading(form.endOdometer)
                      && r.value.notes == Some(form.notes)
  {
    var miles :=
      if form.miles == 0.0 && form.endOdometer > form.startOdometer then Some(form.endOdometer - form.startOdometer)
      else if form.miles == 0.0 then None
      else Some(form.miles);
    if miles.None? then
      Err(MissingMiles)
    else
      var trip := Trip(Iso(form.tripDate), OdometerReading(form.startOdometer), OdometerReading(form.endOdometer),
                       miles.value, Some(form.notes));
      assert IsIsoDate(trip.tripDate) by {
        assert ValidDate(form.tripDate) && Iso(form.tripDate) == trip.tripDate;
      }
      Ok(trip)
  }

  /** The expense "Save Expense" inserts; refused exactly when the amount is not positive. */
  function PrepareExpense(form: ExpenseForm): (r: Result<Expense, SaveError>)
    requires ValidDate(form.expenseDate)
    ensures r.Err? <==> form.amount <= 0.0
    ensures r.Err? ==> r.error == InvalidAmount
    ensures r.Ok? ==> StoredExpense(r.value)
    ensures r.Ok? ==> r.value == Expense(Iso(form.expenseDate), form.category, Some(form.description), form.amount)
  {
    if form.amount <= 0.0 then
      Err(InvalidAmount)
    else
      var expense := Expense(Iso(form.expenseDate), form.category, Some(form.description), form.amount);
      assert IsIsoDate(expense.expenseDate) by {
        assert ValidDate(form.expenseDate) && Iso(form.expenseDate) == expense.expenseDate;
      }
      Ok(expense)
  }

  /**
   * When the miles come from the odometer and both readings are stored,
   * the stored row is self-consistent: start reading plus miles is the end reading.
   */
  lemma OdometerMilesConsistent(form: TripForm)
    requires ValidDate(form.tripDate) && form.miles == 0.0 && form.startOdometer > 0.0
    ensures var r := PrepareTrip(form);
      r.Ok? ==> r.value.startOdometer.value + r.value.miles == r.value.endOdometer.value
  {
  }

  /**
   * The only check on entered miles is `miles == 0`: a negative distance is
   * saved as entered, and then lowers the totals and the deduction.
   */
  lemma NegativeMilesAccepted(d: Date)
    requires ValidDate(d)
    ensures var r := PrepareTrip(TripForm(d, 0.0, 0.0, -5.0, ""));
      r.Ok? && r.value.miles == -5.0 && r.value.startOdometer.None? && r.value.endOdometer.None?
  {
  }

  /**
   * The two tables in insertion order; each successful save appends one row.
   * The order the loads return rows in is not modelled.
   */
  class Ledger {
    var trips: seq<Trip>
    var expenses: seq<Expense>

    /** Every row in the store was saved through a form. */
    ghost predicate Valid()
      reads this
    {
      && (forall i :: 0 <= i < |trips| ==> StoredTrip(trips[i]))
      && (forall i :: 0 <= i < |expenses| ==> StoredExpense(expenses[i]))
    }

    constructor ()
      ensures Valid() && trips == [] && expenses == []
    {
      trips := [];
      expenses := [];
    }

    /** "Save Trip": insert the prepared trip, or report the error and insert nothing. */
    method SaveTrip(form: TripForm) returns (r: Result<Trip, SaveError>)
      requires Valid() && ValidDate(form.tripDate)
      modifies this
      ensures Valid()
      ensures r == PrepareTrip(form)
      ensures trips == if r.Ok? then old(trips) + [r.value] else old(trips)
      ensures expenses == old(expenses)
    {
      r := PrepareTrip(form);
      if r.Ok? {
        trips := trips + [r.value];
      }
    }

    /** "Save Expense": insert the prepared expense, or report the error and insert nothing. */
    method SaveExpense(form: ExpenseForm) returns (r: Result<Expense, SaveError>)
      requires Valid() && ValidDate(form.expenseDate)
      modifies this
      ensures Valid()
      ensures r == PrepareExpense(form)
      ensures expenses == if r.Ok? then old(expenses) + [r.value] else old(expenses)
      ensures trips == old(trips)
    {
      r := PrepareExpense(form);
      if r.Ok? {
        expenses := expenses + [r.value];
      }
    }
  }

  /**
   * Over rows saved through the form, a period's expense total is between 0
   * and the all-time total, and 0 only when the period has no expense.
   */
  lemma SavedExpensesBounded(expenses: seq<Expense>, start: Date, end: Date)
    requires ValidDate(start) && ValidDate(end)
    requires forall i :: 0 <= i < |expenses| ==> StoredExpense(expenses[i])
    ensures var inPeriod := ExpensesInPeriod(expenses, start, end);
      && 0.0 <= TotalExpenses(inPeriod) <= TotalExpenses(expenses)
      && (TotalExpenses(inPeriod) == 0.0 <==> inPeriod == [])
  {
    PeriodExpensesBounded(expenses, start, end);
  }

  /** A saved row's date text selects it exactly when its calendar date is in the period. */
  lemma SavedTripSelectedByCalendar(t: Trip, trips: seq<Trip>, start: Date, end: Date)
    requires ValidDate(start) && ValidDate(end) && StoredTrip(t) && t in trips
    ensures exists d :: (ValidDate(d) && Iso(d) == t.tripDate &&
                         (t in TripsInPeriod(trips, start, end) <==> DateLe(start, d) && DateLe(d, end)))
  {
    var d :| ValidDate(d) && Iso(d) == t.tripDate;
    InPeriodIsCalendarOrder(d, start, end);
  }
}
