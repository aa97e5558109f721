/** The proleptic Gregorian calendar on integer day numbers, standing in for
    Foundation's `Calendar.current` without time zones or daylight saving.
    Day 0 is 0001-01-01; an instant is `day * MinutesPerDay + minuteOfDay`. */
module Calendar {

  const MinutesPerDay: int := 1440

  datatype CivilDate = CivilDate(year: int, month: int, day: int)

  predicate IsLeapYear(y: int) {
    y % 4 == 0 && (y % 100 != 0 || y % 400 == 0)
  }

  function DaysInYear(y: int): int {
    if IsLeapYear(y) then 366 else 365
  }

  function DaysInMonth(y: int, m: int): int
    requires 1 <= m <= 12
  {
    if m == 2 then (if IsLeapYear(y) then 29 else 28)
    else if m == 4 || m == 6 || m == 9 || m == 11 then 30
    else 31
  }

  predicate IsValidDate(c: CivilDate) {
    1 <= c.month <= 12 && 1 <= c.day <= DaysInMonth(c.year, c.month)
  }

  /** Days from 1 January of `y` to the first of month `m`;
      `m == 13` gives the length of the year. */
  function DaysBeforeMonth(y: int, m: int): int
    requires 1 <= m <= 13
  {
    var cumulative := [0, 31, 59, 90, 120, 151, 181, 212, 243, 273, 304, 334, 365];
    cumulative[m - 1] + (if m > 2 && IsLeapYear(y) then 1 else 0)
  }

  /** Day number of 1 January of year `y`. */
  function DaysBeforeYear(y: int): int {
    var k := y - 1;
    365 * k + k / 4 - k / 100 + k / 400
  }

  /** Day number of a year/month/day triple. The day is not range-checked:
      day 0 is the last day of the previous month, day 32 spills into the next. */
  function FromCivil(c: CivilDate): int
    requires 1 <= c.month <= 12
  {
    DaysBeforeYear(c.year) + DaysBeforeMonth(c.year, c.month) + c.day - 1
  }

  lemma MonthStep(y: int, m: int)
    requires 1 <= m <= 12
    ensures DaysBeforeMonth(y, m + 1) == DaysBeforeMonth(y, m) + DaysInMonth(y, m)
  {
  }

  lemma YearLength(y: int)
    ensures DaysBeforeMonth(y, 13) == DaysInYear(y)
  {
  }

  lemma QuotientStep(k: int, d: int)
    requires d == 4 || d == 100 || d == 400
    ensures (k + 1) / d == k / d + (if (k + 1) % d == 0 then 1 else 0)
  {
    var q, r := k / d, k % d;
    assert k == q * d + r && 0 <= r < d;
    if r + 1 < d {
      assert k + 1 == q * d + (r + 1);
      DivisionUnique(k + 1, d, q, r + 1);
    } else {
      assert k + 1 == (q + 1) * d + 0;
      DivisionUnique(k + 1, d, q + 1, 0);
    }
  }

  /** Euclidean division by one of the leap-year moduli is determined by
      its quotient and remainder. */
  lemma DivisionUnique(n: int, d: int, q: int, r: int)
    requires d == 4 || d == 100 || d == 400
    requires n == q * d + r && 0 <= r < d
    ensures n / d == q && n % d == r
  {
    if d == 4 {
      assert n == 4 * q + r;
    } else if d == 100 {
      assert n == 100 * q + r;
    } else {
      assert n == 400 * q + r;
    }
  }

  /** Multiples of 400 are multiples of 100, which are multiples of 4. */
  lemma MultiplesNest(y: int)
    ensures y % 400 == 0 ==> y % 100 == 0
    ensures y % 100 == 0 ==> y % 4 == 0
  {
    if y % 400 == 0 {
      DivisionUnique(y, 100, 4 * (y / 400), 0);
    }
    if y % 100 == 0 {
      DivisionUnique(y, 4, 25 * (y / 100), 0);
    }
  }

  lemma YearStep(y: int)
    ensures DaysBeforeYear(y + 1) == DaysBeforeYear(y) + DaysInYear(y)
  {
    QuotientStep(y - 1, 4);
    QuotientStep(y - 1, 100);
    QuotientStep(y - 1, 400);
    MultiplesNest(y);
  }

  lemma CycleStart(q: int)
    ensures DaysBeforeYear(400 * q + 1) == 146097 * q
  {
    DivisionUnique(400 * q, 4, 100 * q, 0);
    DivisionUnique(400 * q, 100, 4 * q, 0);
    DivisionUnique(400 * q, 400, q, 0);
  }

  /** Years are laid end to end: a later year starts no earlier than the
      end of an earlier one. */
  lemma {:induction false} YearsOrdered(a: int, b: int)
    requires a < b
    ensures DaysBeforeYear(a + 1) <= DaysBeforeYear(b)
    decreases b - a
  {
    if a + 1 < b {
      YearsOrdered(a, b - 1);
      YearStep(b - 1);
    }
  }

  lemma YearUnique(n: int, a: int, b: int)
    requires DaysBeforeYear(a) <= n < DaysBeforeYear(a + 1)
    requires DaysBeforeYear(b) <= n < DaysBeforeYear(b + 1)
    ensures a == b
  {
    if a < b {
      YearsOrdered(a, b);
    } else if b < a {
      YearsOrdered(b, a);
    }
  }

  function FindYear(n: int, y: int): (r: int)
    requires DaysBeforeYear(y) <= n
    ensures DaysBeforeYear(r) <= n < DaysBeforeYear(r + 1)
    decreases n - DaysBeforeYear(y)
  {
    YearStep(y);
    if n < DaysBeforeYear(y + 1) then y else FindYear(n, y + 1)
  }

  /** The year containing day `n`: start at the 400-year cycle and walk forward. */
  function YearOf(n: int): (y: int)
    ensures DaysBeforeYear(y) <= n < DaysBeforeYear(y + 1)
  {
    var q := n / 146097;
    CycleStart(q);
    FindYear(n, 400 * q + 1)
  }

  function FindMonth(y: int, r: int, m: int): (res: int)
    requires 1 <= m <= 12
    requires DaysBeforeMonth(y, m) <= r < DaysBeforeMonth(y, 13)
    ensures 1 <= res <= 12
    ensures DaysBeforeMonth(y, res) <= r < DaysBeforeMonth(y, res + 1)
    decreases 12 - m
  {
    if r < DaysBeforeMonth(y, m + 1) then m else FindMonth(y, r, m + 1)
  }

  lemma MonthUnique(y: int, r: int, a: int, b: int)
    requires 1 <= a <= 12 && 1 <= b <= 12
    requires DaysBeforeMonth(y, a) <= r < DaysBeforeMonth(y, a + 1)
    requires DaysBeforeMonth(y, b) <= r < DaysBeforeMonth(y, b + 1)
    ensures a == b
  {
  }

  /** `Calendar.dateComponents([.year, .month, .day], from:)`. */
  function ToCivil(n: int): (c: CivilDate)
    ensures IsValidDate(c)
    ensures FromCivil(c) == n
  {
    var y := YearOf(n);
    YearStep(y);
    YearLength(y);
    var r := n - DaysBeforeYear(y);
    var m := FindMonth(y, r, 1);
    MonthStep(y, m);
    CivilDate(y, m, r - DaysBeforeMonth(y, m) + 1)
  }

  /** Every valid calendar date survives the trip to a day number and back. */
  lemma CivilRoundTrip(c: CivilDate)
    requires IsValidDate(c)
    ensures ToCivil(FromCivil(c)) == c
  {
    var n := FromCivil(c);
    var d := ToCivil(n);
    MonthStep(c.year, c.month);
    YearLength(c.year);
    YearStep(c.year);
    assert DaysBeforeMonth(c.year, c.month + 1) <= DaysBeforeMonth(c.year, 13);
    YearUnique(n, d.year, c.year);
    MonthStep(d.year, d.month);
    MonthUnique(c.year, n - DaysBeforeYear(c.year), d.month, c.month);
  }

  /** `Calendar.date(from:)` on year, month and day components. Foundation is
      lenient: month 13 is January of the next year, month 0 December of the
      previous one, and an out-of-range day rolls into a neighbouring month. */
  function DateFromComponents(year: int, month: int, day: int): (n: int)
    ensures 1 <= month <= 12 ==> n == FromCivil(CivilDate(year, month, day))
  {
    var y := year + (month - 1) / 12;
    var m := (month - 1) % 12 + 1;
    FromCivil(CivilDate(y, m, day))
  }

  /** In-range components name exactly the date they spell. */
  lemma ComponentsRoundTrip(year: int, month: int, day: int)
    requires IsValidDate(CivilDate(year, month, day))
    ensures ToCivil(DateFromComponents(year, month, day)) == CivilDate(year, month, day)
  {
    CivilRoundTrip(CivilDate(year, month, day));
  }

  /** First day of the month containing day `n`. */
  function MonthStart(n: int): (r: int)
    ensures r == n - ToCivil(n).day + 1
    ensures ToCivil(r) == CivilDate(ToCivil(n).year, ToCivil(n).month, 1)
  {
    var c := ToCivil(n);
    CivilRoundTrip(CivilDate(c.year, c.month, 1));
    FromCivil(CivilDate(c.year, c.month, 1))
  }

  /** The first of the month after month `m` of year `y` comes the length of
      month `m` after the first of `m`. */
  lemma NextFirst(y: int, m: int)
    requires 1 <= m <= 12
    ensures (if m == 12 then FromCivil(CivilDate(y + 1, 1, 1)) else FromCivil(CivilDate(y, m + 1, 1)))
            == FromCivil(CivilDate(y, m, 1)) + DaysInMonth(y, m)
  {
    MonthStep(y, m);
    if m == 12 {
      YearLength(y);
      YearStep(y);
    }
  }

  /** `calendar.date(byAdding: .month, value: 1, to: MonthStart(n))`. */
  function NextMonthStart(n: int): (r: int)
    ensures n < r
    ensures r - MonthStart(n) == DaysInMonth(ToCivil(n).year, ToCivil(n).month)
  {
    var c := ToCivil(n);
    NextFirst(c.year, c.month);
    assert n == FromCivil(CivilDate(c.year, c.month, 1)) + c.day - 1;
    assert MonthStart(n) == FromCivil(CivilDate(c.year, c.month, 1));
    if c.month == 12 then FromCivil(CivilDate(c.year + 1, 1, 1))
    else FromCivil(CivilDate(c.year, c.month + 1, 1))
  }

  lemma MonthBounds(n: int)
    ensures MonthStart(n) == DaysBeforeYear(ToCivil(n).year) + DaysBeforeMonth(ToCivil(n).year, ToCivil(n).month)
    ensures NextMonthStart(n) == DaysBeforeYear(ToCivil(n).year) + DaysBeforeMonth(ToCivil(n).year, ToCivil(n).month + 1)
  {
    var c := ToCivil(n);
    MonthStep(c.year, c.month);
    YearLength(c.year);
    YearStep(c.year);
  }

  /** A valid date whose day number lies within month `m` of year `y` is
      in that year and month. */
  lemma Locate(k: int, y: int, m: int, e: CivilDate)
    requires 1 <= m <= 12 && IsValidDate(e) && FromCivil(e) == k
    requires DaysBeforeYear(y) + DaysBeforeMonth(y, m) <= k < DaysBeforeYear(y) + DaysBeforeMonth(y, m + 1)
    ensures e.year == y && e.month == m
  {
    assert DaysBeforeMonth(y, m + 1) <= DaysBeforeMonth(y, 13);
    YearLength(y);
    YearStep(y);
    MonthStep(e.year, e.month);
    assert DaysBeforeMonth(e.year, e.month + 1) <= DaysBeforeMonth(e.year, 13);
    YearLength(e.year);
    YearStep(e.year);
    YearUnique(k, e.year, y);
    MonthUnique(y, k - DaysBeforeYear(y), e.month, m);
  }

  /** Every day in [MonthStart(n), NextMonthStart(n)) has `n`'s year and month. */
  lemma InMonthRange(n: int, k: int)
    requires MonthStart(n) <= k < NextMonthStart(n)
    ensures ToCivil(k).year == ToCivil(n).year && ToCivil(k).month == ToCivil(n).month
  {
    MonthBounds(n);
    Locate(k, ToCivil(n).year, ToCivil(n).month, ToCivil(k));
  }

  /** The half-open range [MonthStart(n), NextMonthStart(n)) holds exactly
      the days that share `n`'s year and month. */
  lemma SameMonthIff(n: int, k: int)
    ensures MonthStart(n) <= k < NextMonthStart(n)
            <==> ToCivil(k).year == ToCivil(n).year && ToCivil(k).month == ToCivil(n).month
  {
    if MonthStart(n) <= k < NextMonthStart(n) {
      InMonthRange(n, k);
    }
    var c := ToCivil(n);
    var e := ToCivil(k);
    if e.year == c.year && e.month == c.month {
      MonthBounds(n);
      MonthStep(e.year, e.month);
    }
  }

  /** `startOfDay(for:)`: the day an instant falls on. */
  function StartOfDay(t: int): (d: int)
    ensures d * MinutesPerDay <= t < (d + 1) * MinutesPerDay
  {
    t / MinutesPerDay
  }
}
