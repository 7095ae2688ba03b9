/** Calendar dates as the three programs exchange them: ISO `YYYY-MM-DD` strings
    in the data files, `datetime.date` in Python and `Date` in JavaScript.
    `month` is 1..12 here; JavaScript's `getMonth()` is `month - 1`. */
module Dates {

  datatype Date = Date(year: int, month: int, day: int)

  predicate IsLeapYear(y: int)
  {
    y % 4 == 0 && (y % 100 != 0 || y % 400 == 0)
  }

  function DaysInMonth(y: int, m: int): (n: int)
    requires 1 <= m <= 12
    ensures 28 <= n <= 31
    ensures m == 2 ==> (n == 29 <==> IsLeapYear(y))
  {
    if m == 2 then (if IsLeapYear(y) then 29 else 28)
    else if m == 4 || m == 6 || m == 9 || m == 11 then 30
    else 31
  }

  /** A date that Python's `datetime.date` accepts (years 1..9999, a real day of the month). */
  predicate ValidDate(d: Date)
  {
    1 <= d.year <= 9999 && 1 <= d.month <= 12 && 1 <= d.day <= DaysInMonth(d.year, d.month)
  }

  /** Chronological order; on ISO date strings it is the string order the programs compare with. */
  predicate Before(a: Date, b: Date)
  {
    a.year < b.year
    || (a.year == b.year && (a.month < b.month || (a.month == b.month && a.day < b.day)))
  }

  predicate NotAfter(a: Date, b: Date)
  {
    !Before(b, a)
  }

  lemma BeforeIsStrictOrder(a: Date, b: Date, c: Date)
    ensures !Before(a, a)
    ensures Before(a, b) ==> !Before(b, a)
    ensures Before(a, b) && Before(b, c) ==> Before(a, c)
    ensures a != b ==> Before(a, b) || Before(b, a)
  {
  }

  /** Euclidean division is determined by its defining equation. */
  lemma DivModUnique(a: int, s: int, q: int, r: int)
    requires s >= 1 && 0 <= r < s && a == q * s + r
    ensures a / s == q && a % s == r
  {
    MultipleBounds(q - a / s, s);
  }

  /** A non-zero multiple of `s` is at least `s` away from zero. */
  lemma MultipleBounds(d: int, s: int)
    requires s >= 1
    ensures d >= 1 ==> d * s >= s
    ensures d <= -1 ==> d * s <= -s
  {
    if d >= 1 {
      assert d * s == (d - 1) * s + s;
    } else if d <= -1 {
      assert d * s == (d + 1) * s - s;
    }
  }

  // ---- Day numbers (the time coordinate the chart interpolates in) ----

  /** Days from January 1st of year 0 to January 1st of `y` (proleptic Gregorian calendar). */
  function DaysBeforeYear(y: int): int
  {
    365 * y + (y + 3) / 4 - (y + 99) / 100 + (y + 399) / 400
  }

  function DaysBeforeMonth(y: int, m: int): (n: int)
    requires 1 <= m <= 12
    decreases m
  {
    if m == 1 then 0 else DaysBeforeMonth(y, m - 1) + DaysInMonth(y, m - 1)
  }

  function DayNumber(d: Date): int
    requires 1 <= d.month <= 12
  {
    DaysBeforeYear(d.year) + DaysBeforeMonth(d.year, d.month) + d.day - 1
  }

  /** Rounding `y / n` up steps by one exactly when `y` is a multiple of `n`. */
  lemma CeilStep(y: int, n: int)
    requires n >= 1
    ensures (y + n) / n - (y + n - 1) / n == if y % n == 0 then 1 else 0
  {
    var q, r := y / n, y % n;
    assert (q + 1) * n == q * n + n;
    DivModUnique(y + n, n, q + 1, r);
    if r == 0 {
      DivModUnique(y + n - 1, n, q, n - 1);
    } else {
      DivModUnique(y + n - 1, n, q + 1, r - 1);
    }
  }

  /** Centuries are leap-year multiples, and so are multiples of 400. */
  lemma CenturyDivisibility(y: int)
    ensures y % 100 == 0 ==> y % 4 == 0
    ensures y % 400 == 0 ==> y % 100 == 0
  {
    if y % 100 == 0 {
      DivModUnique(y, 4, (y / 100) * 25, 0);
    }
    if y % 400 == 0 {
      DivModUnique(y, 100, (y / 400) * 4, 0);
    }
  }

  lemma YearLength(y: int)
    ensures DaysBeforeYear(y + 1) - DaysBeforeYear(y) == if IsLeapYear(y) then 366 else 365
  {
    var four := (y + 4) / 4 - (y + 3) / 4;
    var hundred := (y + 100) / 100 - (y + 99) / 100;
    var fourHundred := (y + 400) / 400 - (y + 399) / 400;
    assert DaysBeforeYear(y + 1) - DaysBeforeYear(y) == 365 + four - hundred + fourHundred;
    CeilStep(y, 4);
    CeilStep(y, 100);
    CeilStep(y, 400);
    CenturyDivisibility(y);
  }

  lemma DaysBeforeDecember(y: int)
    ensures DaysBeforeMonth(y, 12) + DaysInMonth(y, 12) == if IsLeapYear(y) then 366 else 365
  {
  }

  // ---- Month indices (the chart's sample axis) ----

  /** Months since January of year 0: the value a JavaScript `Date(year, month0, 1)` stands for. */
  function MonthIndex(d: Date): int
  {
    d.year * 12 + d.month - 1
  }

  /** The first day of the month with index `mi`; JavaScript's `new Date(year, month0, 1)`
      carries an out-of-range month into the year the same way. */
  function MonthStart(mi: int): (d: Date)
    ensures 1 <= d.month <= 12 && d.day == 1
    ensures MonthIndex(d) == mi
  {
    Date(mi / 12, mi % 12 + 1, 1)
  }

  lemma MonthStartOfIndex(d: Date)
    requires 1 <= d.month <= 12
    ensures MonthStart(MonthIndex(d)) == Date(d.year, d.month, 1)
  {
    var mi := MonthIndex(d);
    assert mi == d.year * 12 + (d.month - 1);
    assert mi / 12 == d.year && mi % 12 == d.month - 1;
  }

  /** The month after a month start: the next month of the year, or January of the next year. */
  lemma NextMonthStart(mi: int)
    ensures var d := MonthStart(mi);
      MonthStart(mi + 1) == if d.month == 12 then Date(d.year + 1, 1, 1) else Date(d.year, d.month + 1, 1)
  {
    var d := MonthStart(mi);
    if d.month == 12 {
      DivModUnique(mi + 1, 12, d.year + 1, 0);
    } else {
      DivModUnique(mi + 1, 12, d.year, d.month);
    }
  }

  /** Consecutive month starts are one month length apart. */
  lemma MonthStartStep(mi: int)
    ensures DayNumber(MonthStart(mi + 1))
         == DayNumber(MonthStart(mi)) + DaysInMonth(MonthStart(mi).year, MonthStart(mi).month)
  {
    var d := MonthStart(mi);
    NextMonthStart(mi);
    if d.month == 12 {
      YearLength(d.year);
      DaysBeforeDecember(d.year);
      assert DayNumber(Date(d.year + 1, 1, 1)) == DaysBeforeYear(d.year + 1);
    } else {
      assert DaysBeforeMonth(d.year, d.month + 1) == DaysBeforeMonth(d.year, d.month) + DaysInMonth(d.year, d.month);
    }
  }

  /** Later month starts have larger day numbers. */
  lemma {:induction false} MonthStartMonotone(i: int, j: int)
    requires i < j
    ensures DayNumber(MonthStart(i)) < DayNumber(MonthStart(j))
    decreases j - i
  {
    MonthStartStep(j - 1);
    if i < j - 1 {
      MonthStartMonotone(i, j - 1);
    }
  }

  /** A real day of a month lies between that month's start and the next month's start. */
  lemma WithinMonth(d: Date)
    requires 1 <= d.month <= 12 && 1 <= d.day <= DaysInMonth(d.year, d.month)
    ensures DayNumber(MonthStart(MonthIndex(d))) <= DayNumber(d)
    ensures DayNumber(d) < DayNumber(MonthStart(MonthIndex(d) + 1))
  {
    MonthStartOfIndex(d);
    MonthStartStep(MonthIndex(d));
  }
}
