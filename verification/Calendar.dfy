/** Civil dates and day numbers in the proleptic Gregorian calendar, counted from 1970-01-01. */
module Calendar {

  datatype Date = Date(year: int, month: int, day: int)

  predicate IsLeap(y: int) {
    y % 4 == 0 && (y % 100 != 0 || y % 400 == 0)
  }

  function YearLength(y: int): int {
    if IsLeap(y) then 366 else 365
  }

  /** The day number of January 1. */
  function YearStart(y: int): int {
    var p := y - 1;
    365 * y + p / 4 - p / 100 + p / 400 - 719527
  }

  /** Days before a month, in a year that is not leap. */
  function MonthDays(m: int): int
    requires 1 <= m <= 13
  {
    [0, 31, 59, 90, 120, 151, 181, 212, 243, 273, 304, 334, 365][m - 1]
  }

  function MonthStart(y: int, m: int): int
    requires 1 <= m <= 13
  {
    MonthDays(m) + (if IsLeap(y) && m > 2 then 1 else 0)
  }

  predicate Valid(d: Date) {
    1 <= d.month <= 12 && 1 <= d.day <= MonthStart(d.year, d.month + 1) - MonthStart(d.year, d.month)
  }

  /** The number of a day of a month; the day itself may run over. */
  function DayNumber(d: Date): int
    requires 1 <= d.month <= 12
  {
    YearStart(d.year) + MonthStart(d.year, d.month) + d.day - 1
  }

  lemma YearAfter(y: int)
    ensures YearStart(y + 1) == YearStart(y) + YearLength(y)
    ensures YearStart(y) + MonthStart(y, 13) == YearStart(y + 1) && MonthStart(y, 1) == 0
  {
    Quotient(y, 4);
    Quotient(y, 100);
    Quotient(y, 400);
    assert y % 400 == 0 ==> y % 100 == 0;
    assert y % 100 == 0 ==> y % 4 == 0;
  }

  /** How a quotient grows. */
  lemma Quotient(y: int, n: int)
    requires n > 1
    ensures y / n == (y - 1) / n + (if y % n == 0 then 1 else 0)
  {
    var q, r := y / n, y % n;
    assert y == q * n + r;
    if r == 0 {
      assert y - 1 == (q - 1) * n + (n - 1);
      DivisionIs(y - 1, n, q - 1, n - 1);
    } else {
      DivisionIs(y - 1, n, q, r - 1);
    }
  }

  lemma DivisionIs(a: int, n: int, q: int, r: int)
    requires n > 0 && a == q * n + r && 0 <= r < n
    ensures a / n == q && a % n == r
  {
    var k := a / n;
    Multiple(q - k, n);
    Distribute(q, k, n);
  }

  lemma Multiple(x: int, n: int)
    requires n > 0
    ensures x >= 1 ==> x * n >= n
    ensures x <= -1 ==> x * n <= -n
  {
    if x >= 1 {
      assert x * n == (x - 1) * n + n && (x - 1) * n >= 0;
    }
    if x <= -1 {
      assert x * n == (x + 1) * n - n && (x + 1) * n <= 0;
    }
  }

  lemma Distribute(q: int, k: int, n: int)
    ensures (q - k) * n == q * n - k * n
  {
  }

  lemma {:induction false} YearsGrow(a: int, b: int)
    requires a <= b
    ensures YearStart(b) >= YearStart(a) + 365 * (b - a)
    decreases b - a
  {
    if a < b {
      YearAfter(b - 1);
      YearsGrow(a, b - 1);
    }
  }

  lemma CycleStart(k: int)
    ensures YearStart(400 * k + 1) == 146097 * k + YearStart(1)
  {
    DivisionIs(400 * k, 4, 100 * k, 0);
    DivisionIs(400 * k, 100, 4 * k, 0);
    DivisionIs(400 * k, 400, k, 0);
  }

  /** The year of a day, searched upwards from a year that is not after it. */
  function YearFrom(n: int, y: int): (r: int)
    requires YearStart(y) <= n
    ensures r >= y && YearStart(r) <= n < YearStart(r + 1)
    decreases n - YearStart(y)
  {
    YearAfter(y);
    if n < YearStart(y + 1) then y else YearFrom(n, y + 1)
  }

  function YearOf(n: int): (y: int)
    ensures YearStart(y) <= n < YearStart(y + 1)
  {
    var k := (n - YearStart(1)) / 146097;
    CycleStart(k);
    YearFrom(n, 400 * k + 1)
  }

  function MonthFrom(y: int, n: int, m: int): (r: int)
    requires 1 <= m <= 12 && MonthStart(y, m) <= n < MonthStart(y, 13)
    ensures m <= r <= 12 && MonthStart(y, r) <= n < MonthStart(y, r + 1)
    decreases 12 - m
  {
    if n < MonthStart(y, m + 1) then m else MonthFrom(y, n, m + 1)
  }

  /** The civil date of a day number, as gmtime gives it. */
  function CivilDate(n: int): (d: Date)
    ensures Valid(d) && DayNumber(d) == n
  {
    var y := YearOf(n);
    YearAfter(y);
    var m := MonthFrom(y, n - YearStart(y), 1);
    Date(y, m, n - YearStart(y) - MonthStart(y, m) + 1)
  }

  lemma MonthsGrow(y: int, a: int, b: int)
    requires 1 <= a < b <= 13
    ensures MonthStart(y, a) < MonthStart(y, b) && MonthStart(y, a + 1) <= MonthStart(y, b)
  {
  }

  /** Valid dates are ordered as their day numbers. */
  predicate Before(a: Date, b: Date) {
    a.year < b.year || (a.year == b.year && (a.month < b.month || (a.month == b.month && a.day < b.day)))
  }

  lemma OrderKept(a: Date, b: Date)
    requires Valid(a) && Valid(b)
    ensures Before(a, b) <==> DayNumber(a) < DayNumber(b)
  {
    EarlierFirst(a, b);
    EarlierFirst(b, a);
    assert a == b || Before(a, b) || Before(b, a);
  }

  lemma EarlierFirst(a: Date, b: Date)
    requires Valid(a) && Valid(b)
    ensures Before(a, b) ==> DayNumber(a) < DayNumber(b)
  {
    hide YearStart, MonthStart;
    if a.year < b.year {
      InYear(a);
      InYear(b);
      YearsGrow(a.year + 1, b.year);
    } else if a.year == b.year && a.month < b.month {
      MonthsGrow(a.year, a.month, b.month);
    }
  }

  lemma InYear(d: Date)
    requires Valid(d)
    ensures YearStart(d.year) <= DayNumber(d) < YearStart(d.year + 1)
  {
    YearAfter(d.year);
    if d.month < 12 {
      MonthsGrow(d.year, d.month, 13);
    }
    if d.month > 1 {
      MonthsGrow(d.year, 1, d.month);
    }
  }

  /** Day numbers and valid dates are in one-to-one correspondence. */
  lemma CivilOfDayNumber(d: Date)
    requires Valid(d)
    ensures CivilDate(DayNumber(d)) == d
  {
    var e := CivilDate(DayNumber(d));
    OrderKept(d, e);
    OrderKept(e, d);
    hide DayNumber, CivilDate;
    assert d == e || Before(d, e) || Before(e, d);
  }
}
