/** The proleptic Gregorian calendar of Python's `datetime`: dates and their ordinals. */
module Calendar {
  import opened DateTimes

  const MIN_YEAR := 1
  const MAX_YEAR := 9999

  datatype Date = Date(year: int, month: int, day: int)

  predicate IsLeap(y: int) {
    y % 4 == 0 && (y % 100 != 0 || y % 400 == 0)
  }

  function DaysInMonth(y: int, m: int): int {
    if m == 2 then (if IsLeap(y) then 29 else 28)
    else if m == 4 || m == 6 || m == 9 || m == 11 then 30
    else 31
  }

  /** Days before 1 January of year `y`. */
  function DaysBeforeYear(y: int): int {
    365 * (y - 1) + (y - 1) / 4 - (y - 1) / 100 + (y - 1) / 400
  }

  function DaysInYear(y: int): int {
    if IsLeap(y) then 366 else 365
  }

  /** Days of year `y` before the first of month `m`. */
  function DaysBeforeMonth(y: int, m: nat): int
    requires 1 <= m <= 13
    decreases m
  {
    if m == 1 then 0 else DaysBeforeMonth(y, m - 1) + DaysInMonth(y, m - 1)
  }

  predicate ValidDate(d: Date) {
    MIN_YEAR <= d.year <= MAX_YEAR && 1 <= d.month <= 12 && 1 <= d.day <= DaysInMonth(d.year, d.month)
  }

  function Ordinal(d: Date): int
    requires ValidDate(d)
  {
    DaysBeforeYear(d.year) + DaysBeforeMonth(d.year, d.month) + d.day
  }

  lemma YearStep(y: int)
    ensures DaysBeforeYear(y + 1) == DaysBeforeYear(y) + DaysInYear(y)
  {
    var z := y - 1;
    assert (z + 1) / 4 == z / 4 + if y % 4 == 0 then 1 else 0;
    assert (z + 1) / 100 == z / 100 + if y % 100 == 0 then 1 else 0;
    assert (z + 1) / 400 == z / 400 + if y % 400 == 0 then 1 else 0;
    assert y % 100 == 0 ==> y % 4 == 0;
    assert y % 400 == 0 ==> y % 100 == 0;
  }

  lemma {:induction false} YearsGrow(y: int, z: int)
    requires y <= z
    ensures DaysBeforeYear(y) + 365 * (z - y) <= DaysBeforeYear(z)
    decreases z - y
  {
    if y < z {
      YearsGrow(y, z - 1);
      YearStep(z - 1);
    }
  }

  lemma MonthsOfYear(y: int)
    ensures DaysBeforeMonth(y, 13) == DaysInYear(y)
  {
    assert DaysBeforeMonth(y, 5) == DaysBeforeMonth(y, 3) + 61;
    assert DaysBeforeMonth(y, 7) == DaysBeforeMonth(y, 5) + 61;
    assert DaysBeforeMonth(y, 9) == DaysBeforeMonth(y, 7) + 62;
    assert DaysBeforeMonth(y, 11) == DaysBeforeMonth(y, 9) + 61;
    assert DaysBeforeMonth(y, 13) == DaysBeforeMonth(y, 11) + 61;
    assert DaysBeforeMonth(y, 3) == 31 + DaysInMonth(y, 2);
  }

  lemma {:induction false} MonthsGrow(y: int, m: nat, n: nat)
    requires 1 <= m < n <= 13
    ensures DaysBeforeMonth(y, m) + DaysInMonth(y, m) <= DaysBeforeMonth(y, n)
    decreases n
  {
    if m < n - 1 { MonthsGrow(y, m, n - 1); }
  }

  lemma OrdinalInYear(d: Date)
    requires ValidDate(d)
    ensures DaysBeforeYear(d.year) < Ordinal(d) <= DaysBeforeYear(d.year + 1)
    ensures 1 <= Ordinal(d) <= MAX_ORDINAL
  {
    MonthsOfYear(d.year);
    MonthsGrow(d.year, d.month, 13);
    if d.month > 1 { MonthsGrow(d.year, 1, d.month); }
    YearStep(d.year);
    YearsGrow(1, d.year);
    YearsGrow(d.year + 1, 10000);
  }

  /** The year holding day `n`, searched upwards from `y`. */
  function YearFrom(n: int, y: int): (r: int)
    requires DaysBeforeYear(y) < n
    ensures y <= r && DaysBeforeYear(r) < n <= DaysBeforeYear(r + 1)
    decreases n - DaysBeforeYear(y)
  {
    YearStep(y);
    if n <= DaysBeforeYear(y + 1) then y else YearFrom(n, y + 1)
  }

  /** The month of year `y` holding its day `n`, searched upwards from `m`. */
  function MonthFrom(y: int, n: int, m: nat): (r: nat)
    requires 1 <= m <= 12 && DaysBeforeMonth(y, m) < n <= DaysBeforeMonth(y, 13)
    ensures m <= r <= 12 && DaysBeforeMonth(y, r) < n <= DaysBeforeMonth(y, r + 1)
    decreases 12 - m
  {
    if n <= DaysBeforeMonth(y, m + 1) then m else MonthFrom(y, n, m + 1)
  }

  function FromOrdinal(n: int): (d: Date)
    requires 1 <= n <= MAX_ORDINAL
    ensures ValidDate(d) && Ordinal(d) == n
  {
    var y := YearFrom(n, 1);
    YearStep(y);
    MonthsOfYear(y);
    var m := MonthFrom(y, n - DaysBeforeYear(y), 1);
    assert y <= MAX_YEAR by {
      if y > MAX_YEAR { YearsGrow(10000, y); }
    }
    Date(y, m, n - DaysBeforeYear(y) - DaysBeforeMonth(y, m))
  }

  lemma YearsInOrder(a: Date, b: Date)
    requires ValidDate(a) && ValidDate(b) && a.year < b.year
    ensures Ordinal(a) < Ordinal(b)
  {
    OrdinalInYear(a);
    OrdinalInYear(b);
    YearsGrow(a.year + 1, b.year);
  }

  lemma MonthsInOrder(a: Date, b: Date)
    requires ValidDate(a) && ValidDate(b) && a.year == b.year && a.month < b.month
    ensures Ordinal(a) < Ordinal(b)
  {
    MonthsGrow(a.year, a.month, b.month);
  }

  /** A date is determined by its ordinal. */
  lemma OrdinalInjective(a: Date, b: Date)
    requires ValidDate(a) && ValidDate(b) && Ordinal(a) == Ordinal(b)
    ensures a == b
  {
    if a.year < b.year {
      YearsInOrder(a, b);
    } else if b.year < a.year {
      YearsInOrder(b, a);
    } else if a.month < b.month {
      MonthsInOrder(a, b);
    } else if b.month < a.month {
      MonthsInOrder(b, a);
    }
  }

  lemma FromOrdinalInverse(d: Date)
    requires ValidDate(d)
    ensures 1 <= Ordinal(d) <= MAX_ORDINAL && FromOrdinal(Ordinal(d)) == d
  {
    OrdinalInYear(d);
    OrdinalInjective(FromOrdinal(Ordinal(d)), d);
  }

  // ---------------------------------------------------------------- the days one after the other

  /** The last day of the month, as the calendar has it. */
  function LastOf(y: int, m: int): int
    requires 1 <= m <= 12
  {
    if m == 2 && y % 4 == 0 && (y % 100 > 0 || y % 400 == 0) then 29
    else [31, 28, 31, 30, 31, 30, 31, 31, 30, 31, 30, 31][m - 1]
  }

  /** The day after. */
  function NextDate(d: Date): Date
    requires 1 <= d.month <= 12
  {
    if d.day < LastOf(d.year, d.month) then Date(d.year, d.month, d.day + 1)
    else if d.month < 12 then Date(d.year, d.month + 1, 1)
    else Date(d.year + 1, 1, 1)
  }

  /** Ordinals count the days without a gap. */
  lemma OrdinalsCountDays(d: Date)
    requires ValidDate(d)
    requires d != Date(9999, 12, 31)
    ensures ValidDate(NextDate(d)) && Ordinal(NextDate(d)) == Ordinal(d) + 1
  {
    hide DaysInMonth, DaysBeforeMonth, LastOf, DaysBeforeYear, IsLeap, DaysInYear;
    LengthsAgree(d.year, d.month);
    if d.day < LastOf(d.year, d.month) {
    } else if d.month < 12 {
      NextMonth(d.year, d.month);
    } else {
      NextYear(d.year);
    }
  }

  /** They run from 1 January of year 1, the first, to 31 December 9999. */
  lemma FirstAndLast(d: Date)
    requires ValidDate(d)
    ensures d.year == 1 && d.month == 1 && d.day == 1 ==> Ordinal(d) == 1
    ensures d.year == 9999 && d.month == 12 && d.day == 31 ==> Ordinal(d) == 3652059
  {
    MonthsOfYear(d.year);
    NextYear(d.year);
    hide DaysInMonth, IsLeap;
  }

  lemma NextMonth(y: int, m: int)
    requires 1 <= m < 12
    ensures DaysBeforeMonth(y, m + 1) == DaysBeforeMonth(y, m) + DaysInMonth(y, m) && DaysInMonth(y, m + 1) >= 1
  {}

  lemma NextYear(y: int)
    ensures DaysBeforeYear(y + 1) + DaysBeforeMonth(y + 1, 1) + 1 == DaysBeforeYear(y) + DaysBeforeMonth(y, 12) + 31 + 1
    ensures DaysInMonth(y, 12) == 31 == DaysInMonth(y + 1, 1)
  {
    YearStep(y);
    MonthsOfYear(y);
    assert DaysBeforeMonth(y, 13) == DaysBeforeMonth(y, 12) + DaysInMonth(y, 12);
  }

  lemma LengthsAgree(y: int, m: int)
    requires 1 <= m <= 12
    ensures DaysInMonth(y, m) == LastOf(y, m)
  {}

  /** So do the weekdays, from Monday, 0, to Sunday, 6: 1 January 2024 was a Monday. */
  lemma WeekdaysFollow(n: int)
    ensures DayOfWeek(Ordinal(Date(2024, 1, 1))) == 0
    ensures 0 <= DayOfWeek(n) <= 6 && DayOfWeek(n + 1) == if DayOfWeek(n) == 6 then 0 else DayOfWeek(n) + 1
  {}
}
