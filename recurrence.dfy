/** The recurrence period of a task and the due date it gives. */
module Recurrence {
  import opened Calendar

  /** `RecurrenceUnit`: the request schema and the tasks table admit only these two. */
  datatype RecurrenceUnit = Days | Months

  /**
   * `calculateDueDate`, and the same computation inside `completeTask`: the
   * reference instant moved forward by the recurrence period with
   * `setDate`/`setMonth`, keeping its time of day.
   */
  function CalculateDueDate(reference: Instant, value: int, unit: RecurrenceUnit): (r: Instant)
    ensures r.time == reference.time
    ensures unit == Days ==> DayNumber(r.date) == DayNumber(reference.date) + value
    ensures unit == Days ==> EpochMs(r) == EpochMs(reference) + value * MsPerDay
    ensures unit == Months ==> MonthsLater(reference.date, value, r.date)
  {
    match unit
    case Days => AddDaysAt(reference, value)
    case Months => AddMonthsAt(reference, value)
  }

  /** A period of a whole number of days computed in two steps is the period computed at once. */
  lemma DaysPeriodsAdd(reference: Instant, a: int, b: int)
    ensures CalculateDueDate(CalculateDueDate(reference, a, Days), b, Days)
         == CalculateDueDate(reference, a + b, Days)
  {
    AddDaysAdd(reference.date, a, b);
  }

  /** 31 January 2024 plus one month is 2 March 2024 (February has 29 days that year), at any time of day. */
  lemma MonthEndRollsOver(reference: Instant)
    requires reference.date == Date(2024, 1, 31)
    ensures CalculateDueDate(reference, 1, Months).date == Date(2024, 3, 2)
  {
    assert 2024 % 4 == 0 && 2024 % 100 == 24;
    assert DaysInMonth(2024, 2) == 29;
    var r := CalculateDueDate(reference, 1, Months).date;
    assert YearOf(MonthIndex(reference.date) + 1) == 2024 && MonthOf(MonthIndex(reference.date) + 1) == 2;
    assert MonthIndex(r) == 2024 * 12 + 2 && r.day == 2;
    var k := r.year - 2024;
    assert k * 12 == 3 - r.month;
  }
}
