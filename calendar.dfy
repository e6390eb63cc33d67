/**
 * The proleptic Gregorian calendar as Python's `datetime` implements it:
 * leap years, month lengths, the ordinal day number of a date and the step
 * back by one calendar day that `today - timedelta(days=i)` repeats.
 */
module Calendar {

  /** A calendar date, the fields of a `datetime` that `strftime` reads here. */
  datatype Date = Date(year: int, month: int, day: int)

  /** The years the model covers: `%Y` prints exactly four digits for them. */
  const MinYear: int := 1000
  const MaxYear: int := 9999

  /** The first date the model covers. */
  const Earliest: Date := Date(MinYear, 1, 1)

  predicate IsLeap(y: int) {
    y % 4 == 0 && (y % 100 != 0 || y % 400 == 0)
  }

  function DaysInMonth(y: int, m: int): int
    requires 1 <= m <= 12
  {
    if m == 2 then (if IsLeap(y) then 29 else 28)
    else if m == 4 || m == 6 || m == 9 || m == 11 then 30
    else 31
  }

  function DaysInYear(y: int): int {
    if IsLeap(y) then 366 else 365
  }

  /** A date that exists and lies in the years the model covers. */
  predicate Valid(d: Date) {
    MinYear <= d.year <= MaxYear && 1 <= d.month <= 12 && 1 <= d.day <= DaysInMonth(d.year, d.month)
  }

  /** Number of days in the years 1 .. y-1. */
  function DaysBeforeYear(y: int): int
    requires y >= 1
  {
    var y1 := y - 1;
    y1 * 365 + y1 / 4 - y1 / 100 + y1 / 400
  }

  /** Number of days in year y before the first of month m. */
  function DaysBeforeMonth(y: int, m: int): int
    requires 1 <= m <= 12
  {
    [0, 31, 59, 90, 120, 151, 181, 212, 243, 273, 304, 334][m - 1]
      + (if m > 2 && IsLeap(y) then 1 else 0)
  }

  /**
   * The ordinal of a date: 0001-01-01 is day 1 (Python's `date.toordinal`).
   * It falls among the ordinals of its own year.
   */
  function DayNumber(d: Date): (n: int)
    requires Valid(d)
    ensures DaysBeforeYear(d.year) < n <= DaysBeforeYear(d.year) + DaysInYear(d.year)
  {
    MonthInYear(d.year, d.month);
    DaysBeforeYear(d.year) + DaysBeforeMonth(d.year, d.month) + d.day
  }

  /** Lexicographic order on (year, month, day): the calendar order. */
  predicate Before(a: Date, b: Date) {
    a.year < b.year
    || (a.year == b.year && a.month < b.month)
    || (a.year == b.year && a.month == b.month && a.day < b.day)
  }

  /** Month m's table entry plus its length gives month m+1's entry. */
  lemma MonthStep(y: int, m: int)
    requires 1 <= m < 12
    ensures DaysBeforeMonth(y, m + 1) == DaysBeforeMonth(y, m) + DaysInMonth(y, m)
  {
  }

  /** December ends the year. */
  lemma YearEnd(y: int)
    ensures DaysBeforeMonth(y, 12) + DaysInMonth(y, 12) == DaysInYear(y)
  {
  }

  /** The closed form of DaysBeforeYear grows by exactly the length of each year. */
  lemma YearStep(y: int)
    requires y >= 1
    ensures DaysBeforeYear(y + 1) == DaysBeforeYear(y) + DaysInYear(y)
  {
    Step4(y);
    Step100(y);
    Step400(y);
    Divides(y);
    var d4, d100, d400 := y / 4 - (y - 1) / 4, y / 100 - (y - 1) / 100, y / 400 - (y - 1) / 400;
    assert DaysBeforeYear(y + 1) - DaysBeforeYear(y) == 365 + d4 - d100 + d400;
  }

  /** A multiple of 400 is a multiple of 100, and a multiple of 100 one of 4. */
  lemma Divides(y: int)
    ensures y % 400 == 0 ==> y % 100 == 0
    ensures y % 100 == 0 ==> y % 4 == 0
  {
    if y % 400 == 0 {
      Divides400(y);
    }
    if y % 100 == 0 {
      Divides100(y);
    }
  }

  lemma Divides400(y: int)
    requires y % 400 == 0
    ensures y % 100 == 0
  {
    var t := 4 * (y / 400);
    assert y == 100 * t;
  }

  lemma Divides100(y: int)
    requires y % 100 == 0
    ensures y % 4 == 0
  {
    var t := 25 * (y / 100);
    assert y == 4 * t;
  }

  lemma Step4(y: int)
    ensures y / 4 - (y - 1) / 4 == if y % 4 == 0 then 1 else 0
  {
    var q, r := (y - 1) / 4, (y - 1) % 4;
    if r == 3 {
      assert y == 4 * (q + 1);
    } else {
      assert y == 4 * q + (r + 1);
    }
  }

  lemma Step100(y: int)
    ensures y / 100 - (y - 1) / 100 == if y % 100 == 0 then 1 else 0
  {
    var q, r := (y - 1) / 100, (y - 1) % 100;
    if r == 99 {
      assert y == 100 * (q + 1);
    } else {
      assert y == 100 * q + (r + 1);
    }
  }

  lemma Step400(y: int)
    ensures y / 400 - (y - 1) / 400 == if y % 400 == 0 then 1 else 0
  {
    var q, r := (y - 1) / 400, (y - 1) % 400;
    if r == 399 {
      assert y == 400 * (q + 1);
    } else {
      assert y == 400 * q + (r + 1);
    }
  }

  /**
   * The day before d. Within a month the day decreases; on the first of a
   * month the previous month's last day is taken, and on 1 January the
   * previous year's 31 December. Its ordinal is exactly one less.
   */
  function PrevDay(d: Date): (r: Date)
    requires Valid(d) && d != Earliest
    ensures Valid(r) && Before(r, d)
    ensures DayNumber(r) == DayNumber(d) - 1
  {
    if d.day > 1 then
      Date(d.year, d.month, d.day - 1)
    else if d.month > 1 then
      MonthStep(d.year, d.month - 1);
      Date(d.year, d.month - 1, DaysInMonth(d.year, d.month - 1))
    else
      YearStep(d.year - 1);
      YearEnd(d.year - 1);
      Date(d.year - 1, 12, 31)
  }

  /**
   * `d - timedelta(days=n)`: n steps back through the calendar. The result's
   * ordinal is n less than d's; by DayNumberInjective it is the only date
   * with that ordinal, which is how Python computes the difference.
   */
  function SubtractDays(d: Date, n: nat): (r: Date)
    requires Valid(d) && n <= DayNumber(d) - DayNumber(Earliest)
    ensures Valid(r)
    ensures DayNumber(r) == DayNumber(d) - n
    decreases n
  {
    if n == 0 then d else PrevDay(SubtractDays(d, n - 1))
  }

  /** Later months of a year start no earlier than an earlier month ends. */
  lemma {:induction false} MonthsOrdered(y: int, m1: int, m2: int)
    requires 1 <= m1 < m2 <= 12
    ensures DaysBeforeMonth(y, m1) + DaysInMonth(y, m1) <= DaysBeforeMonth(y, m2)
    decreases m2 - m1
  {
    MonthStep(y, m1);
    if m1 + 1 < m2 {
      MonthsOrdered(y, m1 + 1, m2);
    }
  }

  /** Every day of year y1 has a smaller ordinal than 1 January of a later year y2. */
  lemma {:induction false} YearsOrdered(y1: int, y2: int)
    requires 1 <= y1 < y2
    ensures DaysBeforeYear(y1) + DaysInYear(y1) <= DaysBeforeYear(y2)
    decreases y2 - y1
  {
    YearStep(y1);
    if y1 + 1 < y2 {
      YearsOrdered(y1 + 1, y2);
      YearStep(y1 + 1);
    }
  }

  /** The last day of any month lies inside the year's day count. */
  lemma MonthInYear(y: int, m: int)
    requires 1 <= m <= 12
    ensures DaysBeforeMonth(y, m) + DaysInMonth(y, m) <= DaysInYear(y)
  {
    YearEnd(y);
    if m < 12 {
      MonthsOrdered(y, m, 12);
    }
  }

  /** The ordinal respects the calendar order. */
  lemma DayNumberMonotone(a: Date, b: Date)
    requires Valid(a) && Valid(b) && Before(a, b)
    ensures DayNumber(a) < DayNumber(b)
  {
    if a.year < b.year {
      MonthInYear(a.year, a.month);
      YearsOrdered(a.year, b.year);
    } else if a.month < b.month {
      MonthsOrdered(a.year, a.month, b.month);
    }
  }

  /** Distinct dates have distinct ordinals. */
  lemma DayNumberInjective(a: Date, b: Date)
    requires Valid(a) && Valid(b) && DayNumber(a) == DayNumber(b)
    ensures a == b
  {
    if Before(a, b) {
      DayNumberMonotone(a, b);
    } else if Before(b, a) {
      DayNumberMonotone(b, a);
    }
  }

  /**
   * SubtractDays is Python's date arithmetic: the unique valid date whose
   * ordinal is n less than d's, and it is n days earlier in calendar order.
   */
  lemma SubtractDaysIsOrdinalDifference(d: Date, n: nat, e: Date)
    requires Valid(d) && n <= DayNumber(d) - DayNumber(Earliest)
    requires Valid(e) && DayNumber(e) == DayNumber(d) - n
    ensures SubtractDays(d, n) == e
  {
    DayNumberInjective(SubtractDays(d, n), e);
  }

  /** Going further back gives a strictly earlier date. */
  lemma SubtractDaysOrdered(d: Date, i: nat, j: nat)
    requires Valid(d) && i < j <= DayNumber(d) - DayNumber(Earliest)
    ensures Before(SubtractDays(d, j), SubtractDays(d, i))
  {
    var a, b := SubtractDays(d, j), SubtractDays(d, i);
    if !Before(a, b) {
      if a == b {
      } else {
        assert Before(b, a);
        DayNumberMonotone(b, a);
      }
    }
  }
}
