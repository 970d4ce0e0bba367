/**
 * Proleptic-Gregorian civil dates. This module stands in for the date-fns
 * calls the calendar makes (startOfMonth, endOfMonth, startOfWeek, endOfWeek,
 * eachDayOfInterval, isSameDay, isSameMonth, addMonths, subMonths). A date is
 * a (year, month, day) triple; a day number counts days from 1970-01-01 and
 * gives dates their order and their weekday (0 = Sunday, .., 6 = Saturday).
 */
module CivilDate {

  datatype Date = Date(year: int, month: int, day: int)

  predicate IsLeapYear(y: int)
  {
    y % 4 == 0 && (y % 100 != 0 || y % 400 == 0)
  }

  function YearLength(y: int): int
  {
    if IsLeapYear(y) then 366 else 365
  }

  function DaysInMonth(y: int, m: int): (n: int)
    requires 1 <= m <= 12
    ensures 28 <= n <= 31
    ensures m == 2 ==> (n == 29 <==> IsLeapYear(y))
  {
    if m == 2 then (if IsLeapYear(y) then 29 else 28)
    else if m == 4 || m == 6 || m == 9 || m == 11 then 30
    else 31
  }

  /** A date that names a real day of the calendar. */
  predicate Valid(d: Date)
  {
    1 <= d.month <= 12 && 1 <= d.day <= DaysInMonth(d.year, d.month)
  }

  /** Days of year y that come before the 1st of month m. */
  function DaysBeforeMonth(y: int, m: int): int
    requires 1 <= m <= 12
  {
    if m == 1 then 0 else DaysBeforeMonth(y, m - 1) + DaysInMonth(y, m - 1)
  }

  /** DaysBeforeMonth in closed form: the common-year table plus the leap day
      once February is past. */
  lemma {:induction false} DaysBeforeMonthValue(y: int, m: int)
    requires 1 <= m <= 12
    ensures var common :=
      if m == 1 then 0 else if m == 2 then 31 else if m == 3 then 59
      else if m == 4 then 90 else if m == 5 then 120 else if m == 6 then 151
      else if m == 7 then 181 else if m == 8 then 212 else if m == 9 then 243
      else if m == 10 then 273 else if m == 11 then 304 else 334;
      DaysBeforeMonth(y, m) == common + (if m > 2 && IsLeapYear(y) then 1 else 0)
  {
    if m > 1 {
      DaysBeforeMonthValue(y, m - 1);
    }
  }

  /** A month ends inside its year, and December ends the year. */
  lemma DaysBeforeMonthBounds(y: int, m: int)
    requires 1 <= m <= 12
    ensures 0 <= DaysBeforeMonth(y, m)
    ensures DaysBeforeMonth(y, m) + DaysInMonth(y, m) <= YearLength(y)
    ensures m == 12 ==> DaysBeforeMonth(y, m) + DaysInMonth(y, m) == YearLength(y)
  {
    DaysBeforeMonthValue(y, m);
  }

  /** Days from 1970-01-01 to January 1st of year y (negative before 1970). */
  function DaysBeforeYear(y: int): int
    decreases if y < 1970 then 1970 - y else y - 1970
  {
    if y == 1970 then 0
    else if y > 1970 then DaysBeforeYear(y - 1) + YearLength(y - 1)
    else DaysBeforeYear(y + 1) - YearLength(y)
  }

  /** Days from 1970-01-01 to d. */
  function DayNumber(d: Date): int
    requires Valid(d)
  {
    DaysBeforeYear(d.year) + DaysBeforeMonth(d.year, d.month) + d.day - 1
  }

  /** Consecutive years are a year's length apart. */
  lemma DaysBeforeNextYear(y: int)
    ensures DaysBeforeYear(y + 1) == DaysBeforeYear(y) + YearLength(y)
  {
  }

  /** A date's day number falls inside its own year's range. */
  lemma DayNumberWithinYear(d: Date)
    requires Valid(d)
    ensures DaysBeforeYear(d.year) <= DayNumber(d) < DaysBeforeYear(d.year) + YearLength(d.year)
  {
    DaysBeforeMonthBounds(d.year, d.month);
  }

  /** Later years start after earlier years end. */
  lemma {:induction false} DaysBeforeYearMonotone(y1: int, y2: int)
    requires y1 < y2
    ensures DaysBeforeYear(y1) + YearLength(y1) <= DaysBeforeYear(y2)
    decreases y2 - y1
  {
    DaysBeforeNextYear(y1);
    if y1 + 1 < y2 {
      DaysBeforeYearMonotone(y1 + 1, y2);
    }
  }

  /** Calendar order: a comes strictly before b. */
  predicate Before(a: Date, b: Date)
  {
    a.year < b.year
    || (a.year == b.year && a.month < b.month)
    || (a.year == b.year && a.month == b.month && a.day < b.day)
  }

  lemma {:induction false} DaysBeforeMonthMonotone(y: int, m1: int, m2: int)
    requires 1 <= m1 < m2 <= 12
    ensures DaysBeforeMonth(y, m1) + DaysInMonth(y, m1) <= DaysBeforeMonth(y, m2)
    decreases m2 - m1
  {
    if m1 + 1 < m2 {
      DaysBeforeMonthMonotone(y, m1 + 1, m2);
    }
  }

  /** Day numbers follow calendar order. */
  lemma DayNumberOrdered(a: Date, b: Date)
    requires Valid(a) && Valid(b) && Before(a, b)
    ensures DayNumber(a) < DayNumber(b)
  {
    if a.year < b.year {
      DayNumberWithinYear(a);
      DayNumberWithinYear(b);
      DaysBeforeYearMonotone(a.year, b.year);
    } else if a.month < b.month {
      DaysBeforeMonthMonotone(a.year, a.month, b.month);
    }
  }

  /** Day numbers name days uniquely: equal day numbers are the same date, and
      calendar order is day-number order. */
  lemma DayNumberInjective(a: Date, b: Date)
    requires Valid(a) && Valid(b)
    ensures DayNumber(a) == DayNumber(b) <==> a == b
    ensures DayNumber(a) < DayNumber(b) <==> Before(a, b)
  {
    if Before(a, b) {
      DayNumberOrdered(a, b);
    } else if Before(b, a) {
      DayNumberOrdered(b, a);
    }
  }

  /** The day after d. */
  function NextDay(d: Date): (r: Date)
    requires Valid(d)
    ensures Valid(r)
    ensures DayNumber(r) == DayNumber(d) + 1
  {
    if d.day < DaysInMonth(d.year, d.month) then
      Date(d.year, d.month, d.day + 1)
    else if d.month < 12 then
      Date(d.year, d.month + 1, 1)
    else
      DaysBeforeNextYear(d.year);
      DaysBeforeMonthBounds(d.year, 12);
      Date(d.year + 1, 1, 1)
  }

  /** The day before d. */
  function PrevDay(d: Date): (r: Date)
    requires Valid(d)
    ensures Valid(r)
    ensures DayNumber(r) == DayNumber(d) - 1
  {
    if d.day > 1 then
      Date(d.year, d.month, d.day - 1)
    else if d.month > 1 then
      Date(d.year, d.month - 1, DaysInMonth(d.year, d.month - 1))
    else
      DaysBeforeNextYear(d.year - 1);
      DaysBeforeMonthBounds(d.year - 1, 12);
      Date(d.year - 1, 12, 31)
  }

  /** Day of the week, 0 = Sunday .. 6 = Saturday (1970-01-01 was a Thursday). */
  function Weekday(d: Date): (w: int)
    requires Valid(d)
    ensures 0 <= w < 7
  {
    (DayNumber(d) + 4) % 7
  }

  /** x % 7 is determined by any decomposition x == 7q + r with 0 <= r < 7. */
  lemma ModSeven(x: int, q: int, r: int)
    requires x == 7 * q + r && 0 <= r < 7
    ensures x % 7 == r
  {
  }

  /** Shifting by k days shifts the weekday by k (mod 7). */
  lemma ModSevenShift(x: int, k: int)
    ensures (x + k) % 7 == (x % 7 + k) % 7
  {
    var r := (x % 7 + k) % 7;
    ModSeven(x + k, x / 7 + (x % 7 + k) / 7, r);
  }

  /** The weekday of the day k days after d is d's weekday moved on by k (mod 7). */
  lemma WeekdayAfter(d: Date, e: Date, k: int)
    requires Valid(d) && Valid(e) && DayNumber(e) == DayNumber(d) + k
    ensures Weekday(e) == (Weekday(d) + k) % 7
  {
    ModSevenShift(DayNumber(d) + 4, k);
  }

  /** The weekday after w is w + 1, except after Saturday (6) comes Sunday (0). */
  lemma NextWeekday(w: int, v: int)
    requires 0 <= w < 7 && v == (w + 1) % 7
    ensures w < 6 ==> v == w + 1
    ensures w == 6 ==> v == 0
  {
  }

  /** Stepping back one day from any day but a Sunday steps back one weekday. */
  lemma WeekdayOfPrevDay(d: Date)
    requires Valid(d) && Weekday(d) != 0
    ensures Weekday(PrevDay(d)) == Weekday(d) - 1
  {
    WeekdayAfter(PrevDay(d), d, 1);
    NextWeekday(Weekday(PrevDay(d)), Weekday(d));
  }

  /** Stepping on one day from any day but a Saturday steps on one weekday. */
  lemma WeekdayOfNextDay(d: Date)
    requires Valid(d) && Weekday(d) != 6
    ensures Weekday(NextDay(d)) == Weekday(d) + 1
  {
    WeekdayAfter(d, NextDay(d), 1);
    NextWeekday(Weekday(d), Weekday(NextDay(d)));
  }

  /** startOfWeek with weeks starting on Sunday: step back to the Sunday on or before d. */
  function StartOfWeek(d: Date): (r: Date)
    requires Valid(d)
    ensures Valid(r) && Weekday(r) == 0
    ensures DayNumber(r) == DayNumber(d) - Weekday(d)
    decreases Weekday(d)
  {
    if Weekday(d) == 0 then d
    else
      WeekdayOfPrevDay(d);
      StartOfWeek(PrevDay(d))
  }

  /** endOfWeek with weeks starting on Sunday: step on to the Saturday on or after d. */
  function EndOfWeek(d: Date): (r: Date)
    requires Valid(d)
    ensures Valid(r) && Weekday(r) == 6
    ensures DayNumber(r) == DayNumber(d) + 6 - Weekday(d)
    decreases 6 - Weekday(d)
  {
    if Weekday(d) == 6 then d
    else
      WeekdayOfNextDay(d);
      EndOfWeek(NextDay(d))
  }

  /** The 1st of d's month. */
  function StartOfMonth(d: Date): (r: Date)
    requires Valid(d)
    ensures Valid(r) && SameMonth(r, d) && r.day == 1
  {
    Date(d.year, d.month, 1)
  }

  /** The last day of d's month. */
  function EndOfMonth(d: Date): (r: Date)
    requires Valid(d)
    ensures Valid(r) && SameMonth(r, d) && NextDay(r).day == 1
  {
    Date(d.year, d.month, DaysInMonth(d.year, d.month))
  }

  /** isSameMonth: same year and same month. */
  predicate SameMonth(a: Date, b: Date)
  {
    a.year == b.year && a.month == b.month
  }

  /** A day is in m's month exactly when it lies between that month's first
      and last day. */
  lemma SameMonthRange(d: Date, m: Date)
    requires Valid(d) && Valid(m)
    ensures SameMonth(d, m) <==>
      DayNumber(StartOfMonth(m)) <= DayNumber(d) <= DayNumber(EndOfMonth(m))
  {
    DayNumberInjective(d, StartOfMonth(m));
    DayNumberInjective(EndOfMonth(m), d);
  }

  /** Months counted from January of year 0. */
  function MonthIndex(d: Date): int
  {
    d.year * 12 + d.month - 1
  }

  lemma MonthIndexInjective(a: Date, b: Date)
    requires 1 <= a.month <= 12 && 1 <= b.month <= 12
    ensures MonthIndex(a) == MonthIndex(b) <==> SameMonth(a, b)
  {
  }

  /** addMonths: move n months (n may be negative) and clamp the day of the
      month to the length of the target month; subMonths(d, n) is AddMonths(d, -n). */
  function AddMonths(d: Date, n: int): (r: Date)
    requires Valid(d)
    ensures Valid(r)
    ensures MonthIndex(r) == MonthIndex(d) + n
    ensures r.day == if d.day <= DaysInMonth(r.year, r.month) then d.day else DaysInMonth(r.year, r.month)
  {
    var total := MonthIndex(d) + n;
    var y := total / 12;
    var m := total % 12 + 1;
    var last := DaysInMonth(y, m);
    Date(y, m, if d.day <= last then d.day else last)
  }
}
