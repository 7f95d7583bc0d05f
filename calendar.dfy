/**
 * The proleptic Gregorian calendar of Python's `datetime`: valid dates, day
 * ordinals (`date.toordinal()`, day 1 is 0001-01-01) and the instants, in whole
 * seconds since 0001-01-01T00:00:00, at which a date starts.
 */
module Calendar {

  datatype Date = Date(year: int, month: int, day: int)

  predicate IsLeap(y: int) {
    y % 4 == 0 && (y % 100 != 0 || y % 400 == 0)
  }

  function DaysInMonth(y: int, m: int): int
    requires 1 <= m <= 12
  {
    if m == 2 then (if IsLeap(y) then 29 else 28)
    else if m == 4 || m == 6 || m == 9 || m == 11 then 30
    else 31
  }

  /** `datetime(year, month, day)` accepts the date (MINYEAR is 1, MAXYEAR is 9999). */
  predicate Valid(d: Date) {
    1 <= d.year <= 9999 && 1 <= d.month <= 12 && 1 <= d.day <= DaysInMonth(d.year, d.month)
  }

  function DaysBeforeYear(y: int): int
    requires y >= 1
  {
    (y - 1) * 365 + (y - 1) / 4 - (y - 1) / 100 + (y - 1) / 400
  }

  /** Days in the months of year `y` that come before month `m` (`m == 13` gives the whole year). */
  function DaysBeforeMonth(y: int, m: int): (r: int)
    requires 1 <= m <= 13
    ensures 0 <= r
  {
    if m == 1 then 0 else DaysBeforeMonth(y, m - 1) + DaysInMonth(y, m - 1)
  }

  function Ordinal(d: Date): int
    requires Valid(d)
  {
    DaysBeforeYear(d.year) + DaysBeforeMonth(d.year, d.month) + d.day
  }

  const SecondsPerDay: int := 86400

  /** `datetime(year, month, day)`, as seconds since 0001-01-01T00:00:00. */
  function Midnight(d: Date): int
    requires Valid(d)
  {
    (Ordinal(d) - 1) * SecondsPerDay
  }

  /** The last whole second `datetime` can represent, 9999-12-31T23:59:59. */
  const MaxSeconds: int := 3652059 * SecondsPerDay - 1

  /** Calendar order: year first, then month, then day. */
  predicate Before(a: Date, b: Date) {
    a.year < b.year
    || (a.year == b.year && a.month < b.month)
    || (a.year == b.year && a.month == b.month && a.day < b.day)
  }

  lemma YearLength(y: int)
    requires y >= 1
    ensures DaysBeforeYear(y + 1) - DaysBeforeYear(y) == (if IsLeap(y) then 366 else 365)
    ensures DaysBeforeMonth(y, 13) == (if IsLeap(y) then 366 else 365)
  {
    assert y / 4 - (y - 1) / 4 == (if y % 4 == 0 then 1 else 0);
    assert y / 100 - (y - 1) / 100 == (if y % 100 == 0 then 1 else 0);
    assert y / 400 - (y - 1) / 400 == (if y % 400 == 0 then 1 else 0);
    assert DaysBeforeMonth(y, 2) == DaysBeforeMonth(y, 1) + DaysInMonth(y, 1);
    assert DaysBeforeMonth(y, 3) == DaysBeforeMonth(y, 2) + DaysInMonth(y, 2);
    assert DaysBeforeMonth(y, 4) == DaysBeforeMonth(y, 3) + DaysInMonth(y, 3);
    assert DaysBeforeMonth(y, 5) == DaysBeforeMonth(y, 4) + DaysInMonth(y, 4);
    assert DaysBeforeMonth(y, 6) == DaysBeforeMonth(y, 5) + DaysInMonth(y, 5);
    assert DaysBeforeMonth(y, 7) == DaysBeforeMonth(y, 6) + DaysInMonth(y, 6);
    assert DaysBeforeMonth(y, 8) == DaysBeforeMonth(y, 7) + DaysInMonth(y, 7);
    assert DaysBeforeMonth(y, 9) == DaysBeforeMonth(y, 8) + DaysInMonth(y, 8);
    assert DaysBeforeMonth(y, 10) == DaysBeforeMonth(y, 9) + DaysInMonth(y, 9);
    assert DaysBeforeMonth(y, 11) == DaysBeforeMonth(y, 10) + DaysInMonth(y, 10);
    assert DaysBeforeMonth(y, 12) == DaysBeforeMonth(y, 11) + DaysInMonth(y, 11);
    assert DaysBeforeMonth(y, 13) == DaysBeforeMonth(y, 12) + DaysInMonth(y, 12);
  }

  lemma {:induction false} MonthsAscend(y: int, m: int, n: int)
    requires 1 <= m < n <= 13
    ensures DaysBeforeMonth(y, m) + DaysInMonth(y, m) <= DaysBeforeMonth(y, n)
    decreases n - m
  {
    if m + 1 < n {
      MonthsAscend(y, m + 1, n);
    }
  }

  lemma {:induction false} YearsAscend(y: int, z: int)
    requires 1 <= y < z
    ensures DaysBeforeYear(y) + DaysBeforeMonth(y, 13) <= DaysBeforeYear(z)
    decreases z - y
  {
    YearLength(y);
    if y + 1 < z {
      YearsAscend(y + 1, z);
      YearLength(y + 1);
    }
  }

  lemma OrdinalAscends(a: Date, b: Date)
    requires Valid(a) && Valid(b) && Before(a, b)
    ensures Ordinal(a) < Ordinal(b)
  {
    if a.year < b.year {
      MonthsAscend(a.year, a.month, 13);
      YearsAscend(a.year, b.year);
    } else if a.month < b.month {
      MonthsAscend(a.year, a.month, b.month);
    }
  }

  /**
   * Comparing the instants at which two valid dates start is comparing the
   * dates in calendar order.
   */
  lemma MidnightOrder(a: Date, b: Date)
    requires Valid(a) && Valid(b)
    ensures Midnight(a) < Midnight(b) <==> Before(a, b)
  {
    if Before(a, b) {
      OrdinalAscends(a, b);
    } else if Before(b, a) {
      OrdinalAscends(b, a);
    }
  }
}
