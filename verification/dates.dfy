/** Calendar dates as day numbers. A date is its proleptic Gregorian
    ordinal, the number Python's `date.toordinal()` gives (0001-01-01 is day
    1), so the difference of two dates in days, `(a - b).days`, is the
    difference of their ordinals. A date-time is a count of minutes on the
    same scale. */
module Dates {

  predicate IsLeapYear(y: int)
  {
    y % 4 == 0 && (y % 100 != 0 || y % 400 == 0)
  }

  function DaysInMonth(y: int, m: int): (n: int)
    requires 1 <= m <= 12
    ensures 28 <= n <= 31
  {
    if m == 2 then (if IsLeapYear(y) then 29 else 28)
    else if m == 4 || m == 6 || m == 9 || m == 11 then 30
    else 31
  }

  /** Days in the months of year `y` before month `m`. */
  function DaysBeforeMonth(y: int, m: int): (n: int)
    requires 1 <= m <= 12
    ensures 0 <= n <= 335
  {
    [0, 31, 59, 90, 120, 151, 181, 212, 243, 273, 304, 334][m - 1]
      + (if m > 2 && IsLeapYear(y) then 1 else 0)
  }

  /** Days in the years before year `y`. */
  function DaysBeforeYear(y: int): int
    requires y >= 1
  {
    var y1 := y - 1;
    y1 * 365 + y1 / 4 - y1 / 100 + y1 / 400
  }

  /** `date(y, m, d).toordinal()`. */
  function Ordinal(y: int, m: int, d: int): (n: int)
    requires 1 <= y <= 9999 && 1 <= m <= 12 && 1 <= d <= DaysInMonth(y, m)
    ensures n >= 1
  {
    DaysBeforeYear(y) + DaysBeforeMonth(y, m) + d
  }

  /** `datetime(y, m, d, h, mi)` as minutes on the ordinal scale. */
  function Minutes(y: int, m: int, d: int, h: int, mi: int): (t: int)
    requires 1 <= y <= 9999 && 1 <= m <= 12 && 1 <= d <= DaysInMonth(y, m)
    requires 0 <= h < 24 && 0 <= mi < 60
    ensures t >= 1440
  {
    Ordinal(y, m, d) * 1440 + h * 60 + mi
  }

  /** The first day of the calendar is day 1. */
  lemma FirstOrdinal()
    ensures Ordinal(1, 1, 1) == 1
  {
  }

  /** A year has 366 days when it is a leap year and 365 otherwise. */
  lemma YearLength(y: int)
    requires y >= 1
    ensures DaysBeforeYear(y + 1) == DaysBeforeYear(y) + (if IsLeapYear(y) then 366 else 365)
  {
    assert y / 4 - (y - 1) / 4 == if y % 4 == 0 then 1 else 0;
    assert y / 100 - (y - 1) / 100 == if y % 100 == 0 then 1 else 0;
    assert y / 400 - (y - 1) / 400 == if y % 400 == 0 then 1 else 0;
  }

  /** The months before `m + 1` are those before `m` and `m` itself. */
  lemma MonthLength(y: int, m: int)
    requires 1 <= m < 12
    ensures DaysBeforeMonth(y, m + 1) == DaysBeforeMonth(y, m) + DaysInMonth(y, m)
  {
  }

  /** Consecutive calendar days have consecutive ordinals, across the end of
      a month and the end of a year, so the difference of two ordinals is
      the number of days between the dates. */
  lemma OrdinalNextDay(y: int, m: int, d: int)
    requires 1 <= y <= 9999 && 1 <= m <= 12 && 1 <= d <= DaysInMonth(y, m)
    ensures d < DaysInMonth(y, m) ==> Ordinal(y, m, d + 1) == Ordinal(y, m, d) + 1
    ensures d == DaysInMonth(y, m) && m < 12 ==> Ordinal(y, m + 1, 1) == Ordinal(y, m, d) + 1
    ensures d == DaysInMonth(y, m) && m == 12 && y < 9999 ==> Ordinal(y + 1, 1, 1) == Ordinal(y, m, d) + 1
  {
    if m < 12 {
      MonthLength(y, m);
    } else {
      YearLength(y);
    }
  }

  /** Minute counts order date-times as the calendar does: a later day is
      later whatever the times, and on the same day a later time is later. */
  lemma MinutesOrder(y1: int, m1: int, d1: int, h1: int, mi1: int,
                     y2: int, m2: int, d2: int, h2: int, mi2: int)
    requires 1 <= y1 <= 9999 && 1 <= m1 <= 12 && 1 <= d1 <= DaysInMonth(y1, m1)
    requires 1 <= y2 <= 9999 && 1 <= m2 <= 12 && 1 <= d2 <= DaysInMonth(y2, m2)
    requires 0 <= h1 < 24 && 0 <= mi1 < 60 && 0 <= h2 < 24 && 0 <= mi2 < 60
    ensures Ordinal(y1, m1, d1) < Ordinal(y2, m2, d2) ==>
      Minutes(y1, m1, d1, h1, mi1) < Minutes(y2, m2, d2, h2, mi2)
    ensures Ordinal(y1, m1, d1) == Ordinal(y2, m2, d2) ==>
      (Minutes(y1, m1, d1, h1, mi1) < Minutes(y2, m2, d2, h2, mi2) <==> h1 * 60 + mi1 < h2 * 60 + mi2)
  {
  }
}
