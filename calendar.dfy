/**
 * Local calendar time as JavaScript's `Date` sees it, at whole-millisecond
 * precision and without daylight-saving shifts: a proleptic Gregorian civil
 * date plus the milliseconds elapsed since local midnight.
 *
 * `date.setDate(date.getDate() + n)` and `date.setMonth(date.getMonth() + n)`
 * both rebuild a date from a (year, month, day) triple whose day or month may
 * lie outside its usual range; `Normalize` is that rebuilding step.
 */
module Calendar {

  const MsPerDay: int := 24 * 60 * 60 * 1000

  predicate IsLeapYear(y: int) {
    (y % 4 == 0 && y % 100 != 0) || y % 400 == 0
  }

  function DaysInMonth(y: int, m: int): (n: int)
    requires 1 <= m <= 12
    ensures 28 <= n <= 31
  {
    if m == 2 then (if IsLeapYear(y) then 29 else 28)
    else if m == 4 || m == 6 || m == 9 || m == 11 then 30
    else 31
  }

  function DaysInYear(y: int): int {
    if IsLeapYear(y) then 366 else 365
  }

  datatype Date = Date(year: int, month: int, day: int) {
    predicate Valid() {
      1 <= month <= 12 && 1 <= day <= DaysInMonth(year, month)
    }
  }

  /** A date that exists in the calendar. */
  type CivilDate = d: Date | d.Valid() witness Date(1970, 1, 1)

  /** Milliseconds since local midnight. */
  type TimeOfDay = t: int | 0 <= t < MsPerDay

  /** A local date and time, as a JavaScript `Date` holds it. */
  datatype Instant = Instant(date: CivilDate, time: TimeOfDay)

  // ---------------------------------------------------------------------
  // day numbers
  // ---------------------------------------------------------------------

  /** Days in the months of year y that come before month m. */
  function DaysBeforeMonth(y: int, m: int): (n: int)
    requires 1 <= m <= 12
    ensures 0 <= n
  {
    var common :=
      if m == 1 then 0 else if m == 2 then 31 else if m == 3 then 59 else if m == 4 then 90
      else if m == 5 then 120 else if m == 6 then 151 else if m == 7 then 181 else if m == 8 then 212
      else if m == 9 then 243 else if m == 10 then 273 else if m == 11 then 304 else 334;
    common + (if m > 2 && IsLeapYear(y) then 1 else 0)
  }

  /** Days from 1 January 1970 to 1 January of year y (negative before 1970). */
  function DaysBeforeYear(y: int): int
    decreases if y < 1970 then 1970 - y else y - 1970
  {
    if y == 1970 then 0
    else if y > 1970 then DaysBeforeYear(y - 1) + DaysInYear(y - 1)
    else DaysBeforeYear(y + 1) - DaysInYear(y)
  }

  /** The day number of the first day of month m of year y. */
  function FirstOfMonth(y: int, m: int): int
    requires 1 <= m <= 12
  {
    DaysBeforeYear(y) + DaysBeforeMonth(y, m)
  }

  /** Days since 1 January 1970: the date's local midnight in whole days. */
  function DayNumber(d: CivilDate): int {
    FirstOfMonth(d.year, d.month) + d.day - 1
  }

  /** The month after month m of year y. */
  function NextMonth(y: int, m: int): (ym: (int, int))
    requires 1 <= m <= 12
    ensures 1 <= ym.1 <= 12
  {
    if m == 12 then (y + 1, 1) else (y, m + 1)
  }

  /** The month before month m of year y. */
  function PrevMonth(y: int, m: int): (ym: (int, int))
    requires 1 <= m <= 12
    ensures 1 <= ym.1 <= 12
    ensures NextMonth(ym.0, ym.1) == (y, m)
  {
    if m == 1 then (y - 1, 12) else (y, m - 1)
  }

  lemma YearStep(y: int)
    ensures DaysBeforeYear(y + 1) == DaysBeforeYear(y) + DaysInYear(y)
  {
  }

  /** A month's first day number plus its length is the next month's first day number. */
  lemma MonthStep(y: int, m: int)
    requires 1 <= m <= 12
    ensures FirstOfMonth(NextMonth(y, m).0, NextMonth(y, m).1) == FirstOfMonth(y, m) + DaysInMonth(y, m)
  {
    if m == 12 { YearStep(y); }
  }

  /**
   * Day d of month m of year y, for any integer d: d = 0 is the last day of the
   * previous month, d = 32 in a 31-day month is the 1st of the next month.
   */
  function Normalize(y: int, m: int, d: int): (r: CivilDate)
    requires 1 <= m <= 12
    ensures DayNumber(r) == FirstOfMonth(y, m) + d - 1
    decreases if d < 1 then 100 - d else d
  {
    if d < 1 then
      var (py, pm) := PrevMonth(y, m);
      MonthStep(py, pm);
      Normalize(py, pm, d + DaysInMonth(py, pm))
    else if d > DaysInMonth(y, m) then
      var (ny, nm) := NextMonth(y, m);
      MonthStep(y, m);
      Normalize(ny, nm, d - DaysInMonth(y, m))
    else
      Date(y, m, d)
  }

  // ---------------------------------------------------------------------
  // the calendar is a bijection onto the integers
  // ---------------------------------------------------------------------

  lemma {:induction false} DaysBeforeYearMonotone(a: int, b: int)
    requires a < b
    ensures DaysBeforeYear(a) + DaysInYear(a) <= DaysBeforeYear(b)
    decreases b - a
  {
    YearStep(a);
    if a + 1 < b {
      DaysBeforeYearMonotone(a + 1, b);
    }
  }

  lemma MonthWithinYear(y: int, m: int)
    requires 1 <= m <= 12
    ensures DaysBeforeMonth(y, m) + DaysInMonth(y, m) <= DaysInYear(y)
  {
  }

  lemma {:induction false} DaysBeforeMonthMonotone(y: int, a: int, b: int)
    requires 1 <= a < b <= 12
    ensures DaysBeforeMonth(y, a) + DaysInMonth(y, a) <= DaysBeforeMonth(y, b)
    decreases b - a
  {
    if a + 1 < b {
      DaysBeforeMonthMonotone(y, a + 1, b);
    }
  }

  /** Calendar order: a comes before b. */
  predicate Before(a: CivilDate, b: CivilDate) {
    a.year < b.year
    || (a.year == b.year && a.month < b.month)
    || (a.year == b.year && a.month == b.month && a.day < b.day)
  }

  lemma DayNumberMonotone(a: CivilDate, b: CivilDate)
    requires Before(a, b)
    ensures DayNumber(a) < DayNumber(b)
  {
    MonthWithinYear(a.year, a.month);
    if a.year < b.year {
      DaysBeforeYearMonotone(a.year, b.year);
    } else if a.month < b.month {
      DaysBeforeMonthMonotone(a.year, a.month, b.month);
    }
  }

  /** Different dates have different day numbers. */
  lemma DayNumberInjective(a: CivilDate, b: CivilDate)
    requires DayNumber(a) == DayNumber(b)
    ensures a == b
  {
    if Before(a, b) {
      DayNumberMonotone(a, b);
    } else if Before(b, a) {
      DayNumberMonotone(b, a);
    }
  }

  // ---------------------------------------------------------------------
  // setDate / setMonth
  // ---------------------------------------------------------------------

  /** `date.setDate(date.getDate() + n)`: the date n days later (earlier for n < 0). */
  function AddDays(date: CivilDate, n: int): (r: CivilDate)
    ensures DayNumber(r) == DayNumber(date) + n
  {
    Normalize(date.year, date.month, date.day + n)
  }

  /** Months since January of year 0. */
  function MonthIndex(d: CivilDate): int {
    d.year * 12 + d.month - 1
  }

  /** The year and month of a month index. */
  function YearOf(index: int): int { index / 12 }
  function MonthOf(index: int): (m: int)
    ensures 1 <= m <= 12
  {
    index % 12 + 1
  }

  /**
   * `date.setMonth(date.getMonth() + n)`: the same day n months later. When
   * that month is too short the surplus days roll into the following month
   * (31 January plus one month is 2 or 3 March).
   */
  /**
   * r is date moved by n months as `setMonth` moves it: the same day in the
   * target month, or, when that month is too short, the excess days into the
   * month after it.
   */
  predicate MonthsLater(date: CivilDate, n: int, r: CivilDate) {
    var target := MonthIndex(date) + n;
    var length := DaysInMonth(YearOf(target), MonthOf(target));
    if date.day <= length then
      MonthIndex(r) == target && r.day == date.day
    else
      MonthIndex(r) == target + 1 && r.day == date.day - length
  }

  function AddMonths(date: CivilDate, n: int): (r: CivilDate)
    ensures MonthsLater(date, n, r)
  {
    var index := date.month - 1 + n;
    var y, m := date.year + index / 12, index % 12 + 1;
    MonthIndexSplit(date, n);
    RollIntoNextMonth(y, m, date.day);
    Normalize(y, m, date.day)
  }

  lemma MonthIndexSplit(date: CivilDate, n: int)
    ensures YearOf(MonthIndex(date) + n) == date.year + (date.month - 1 + n) / 12
    ensures MonthOf(MonthIndex(date) + n) == (date.month - 1 + n) % 12 + 1
  {
    var index := date.month - 1 + n;
    var target := MonthIndex(date) + n;
    assert target == date.year * 12 + index;
    DivModShift(date.year, index);
  }

  lemma DivModShift(a: int, b: int)
    ensures (a * 12 + b) / 12 == a + b / 12
    ensures (a * 12 + b) % 12 == b % 12
  {
    var q, r := b / 12, b % 12;
    assert b == q * 12 + r && 0 <= r < 12;
    assert a * 12 + b == (a + q) * 12 + r;
  }

  /** Normalizing a day of month between 1 and 31 moves at most into the next month. */
  lemma RollIntoNextMonth(y: int, m: int, d: int)
    requires 1 <= m <= 12 && 1 <= d <= 31
    ensures d <= DaysInMonth(y, m) ==> Normalize(y, m, d) == Date(y, m, d)
    ensures d > DaysInMonth(y, m) ==>
      Normalize(y, m, d) == Date(NextMonth(y, m).0, NextMonth(y, m).1, d - DaysInMonth(y, m))
  {
    if d > DaysInMonth(y, m) {
      var (ny, nm) := NextMonth(y, m);
      assert Normalize(y, m, d) == Normalize(ny, nm, d - DaysInMonth(y, m));
      assert Normalize(ny, nm, d - DaysInMonth(y, m)) == Date(ny, nm, d - DaysInMonth(y, m));
    }
  }

  lemma AddDaysAdd(date: CivilDate, a: int, b: int)
    ensures AddDays(AddDays(date, a), b) == AddDays(date, a + b)
  {
    DayNumberInjective(AddDays(AddDays(date, a), b), AddDays(date, a + b));
  }

  lemma AddDaysZero(date: CivilDate)
    ensures AddDays(date, 0) == date
  {
    DayNumberInjective(AddDays(date, 0), date);
  }

  // ---------------------------------------------------------------------
  // instants
  // ---------------------------------------------------------------------

  /** Milliseconds since local midnight of 1 January 1970 (`getTime()` without a time zone). */
  function EpochMs(i: Instant): int {
    DayNumber(i.date) * MsPerDay + i.time
  }

  /** `d.setHours(0, 0, 0, 0)`. */
  function StartOfDay(i: Instant): (r: Instant)
    ensures r.date == i.date && r.time == 0
    ensures EpochMs(r) <= EpochMs(i) < EpochMs(r) + MsPerDay
  {
    Instant(i.date, 0)
  }

  /** The instant n days later at the same time of day. */
  function AddDaysAt(i: Instant, n: int): (r: Instant)
    ensures r.time == i.time
    ensures EpochMs(r) == EpochMs(i) + n * MsPerDay
  {
    Instant(AddDays(i.date, n), i.time)
  }

  /** The instant n months later at the same time of day. */
  function AddMonthsAt(i: Instant, n: int): (r: Instant)
    ensures r.time == i.time
  {
    Instant(AddMonths(i.date, n), i.time)
  }

  /**
   * `Math.floor((midnight(target) - midnight(today)) / MS_IN_DAY)`: whole
   * calendar days from today to the target's day.
   */
  function DiffDays(target: Instant, today: Instant): (n: int)
    ensures n == DayNumber(target.date) - DayNumber(today.date)
  {
    (EpochMs(StartOfDay(target)) - EpochMs(StartOfDay(today))) / MsPerDay
  }
}
