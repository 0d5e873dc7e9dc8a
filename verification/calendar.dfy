/** The proleptic Gregorian calendar in days since 0001-01-01, with the leap rule of RFC 3339, Appendix C. */
module Calendar {
  predicate Leap(year: int) {
    year % 4 == 0 && (year % 100 != 0 || year % 400 == 0)
  }

  function DaysIn(year: int, month: int): int
    requires 1 <= month <= 12
  {
    if month == 2 then (if Leap(year) then 29 else 28)
    else if month in {4, 6, 9, 11} then 30
    else 31
  }

  // Months are numbered through: 12 * year + month - 1, so that month 12 is January of year 1.
  function DaysInMonth(m: int): int {
    DaysIn(m / 12, m % 12 + 1)
  }

  /** The first day of a month, counted month by month from day 0, which is 0001-01-01. */
  function MonthStart(m: int): int
    decreases if m >= 12 then m - 12 else 12 - m
  {
    if m == 12 then 0
    else if m > 12 then MonthStart(m - 1) + DaysInMonth(m - 1)
    else MonthStart(m + 1) - DaysInMonth(m)
  }

  /** Months follow one another without gap or overlap, across years and leap days too. */
  lemma MonthsAbut(m: int)
    ensures MonthStart(m + 1) == MonthStart(m) + DaysInMonth(m)
    ensures 28 <= DaysInMonth(m) <= 31
  {
  }

  lemma {:induction false} MonthsAscend(m: int, n: int)
    requires m < n
    ensures MonthStart(m) + 28 * (n - m) <= MonthStart(n)
    decreases n - m
  {
    MonthsAbut(n - 1);
    if m < n - 1 {
      MonthsAscend(m, n - 1);
    }
  }

  lemma MonthsInOrder(m: int, n: int)
    requires m <= n
    ensures MonthStart(m) <= MonthStart(n)
  {
    if m < n {
      MonthsAscend(m, n);
    }
  }

  // ----- the closed form -----

  function YearStart(year: int): int {
    365 * (year - 1) + (year - 1) / 4 - (year - 1) / 100 + (year - 1) / 400
  }

  lemma QuotientSteps(n: int)
    ensures n / 4 == (n - 1) / 4 + (if n % 4 == 0 then 1 else 0)
    ensures n / 100 == (n - 1) / 100 + (if n % 100 == 0 then 1 else 0)
    ensures n / 400 == (n - 1) / 400 + (if n % 400 == 0 then 1 else 0)
  {
  }

  lemma MultipleOf100(x: int, q: int)
    requires x == 100 * q
    ensures x % 100 == 0
  {
  }

  lemma MultipleOf4(x: int, q: int)
    requires x == 4 * q
    ensures x % 4 == 0
  {
  }

  /** The leap rule counts what the three quotients of the year start count. */
  lemma LeapSteps(year: int)
    ensures (if Leap(year) then 1 else 0)
         == (if year % 4 == 0 then 1 else 0) - (if year % 100 == 0 then 1 else 0) + (if year % 400 == 0 then 1 else 0)
  {
    if year % 400 == 0 {
      MultipleOf100(year, 4 * (year / 400));
      MultipleOf4(year, 100 * (year / 400));
    } else if year % 100 == 0 {
      MultipleOf4(year, 25 * (year / 100));
    }
  }

  lemma YearLength(year: int)
    ensures YearStart(year + 1) == YearStart(year) + (if Leap(year) then 366 else 365)
  {
    QuotientSteps(year);
    LeapSteps(year);
  }

  /** k months into the year, the days so far. */
  function DaysBefore(year: int, k: nat): int
    requires k <= 12
  {
    if k == 0 then 0 else DaysBefore(year, k - 1) + DaysIn(year, k)
  }

  lemma MonthNumber(year: int, k: int)
    requires 0 <= k < 12
    ensures (12 * year + k) / 12 == year && (12 * year + k) % 12 == k
  {
  }

  lemma NextMonthStart(year: int, k: int)
    requires 0 <= k < 12
    ensures MonthStart(12 * year + k + 1) == MonthStart(12 * year + k) + DaysIn(year, k + 1)
  {
    MonthNumber(year, k);
    MonthsAbut(12 * year + k);
  }

  lemma {:induction false} WithinYear(year: int, k: nat)
    requires k <= 12
    ensures MonthStart(12 * year + k) == MonthStart(12 * year) + DaysBefore(year, k)
  {
    if k > 0 {
      WithinYear(year, k - 1);
      NextMonthStart(year, k - 1);
    }
  }

  lemma YearHasTwelveMonths(year: int)
    ensures DaysBefore(year, 12) == if Leap(year) then 366 else 365
  {
    assert DaysBefore(year, 1) == 31;
    assert DaysBefore(year, 2) == 31 + DaysIn(year, 2);
    assert DaysBefore(year, 4) == DaysBefore(year, 2) + 61;
    assert DaysBefore(year, 6) == DaysBefore(year, 4) + 61;
    assert DaysBefore(year, 8) == DaysBefore(year, 6) + 62;
    assert DaysBefore(year, 10) == DaysBefore(year, 8) + 61;
    assert DaysBefore(year, 12) == DaysBefore(year, 10) + 61;
  }

  /** Counting months agrees with the usual closed form for the start of a year. */
  lemma {:induction false} YearStartsByFormula(year: int)
    ensures MonthStart(12 * year) == YearStart(year)
    decreases if year >= 1 then year - 1 else 1 - year
  {
    if year > 1 {
      YearStartsByFormula(year - 1);
      YearLength(year - 1);
      WithinYear(year - 1, 12);
      YearHasTwelveMonths(year - 1);
    } else if year < 1 {
      YearStartsByFormula(year + 1);
      YearLength(year);
      WithinYear(year, 12);
      YearHasTwelveMonths(year);
    }
  }

  predicate IsMonthOf(m: int, day: int) {
    MonthStart(m) <= day < MonthStart(m + 1)
  }

  /** How far a day lies outside a month. */
  function Gap(day: int, m: int): int {
    if day < MonthStart(m) then MonthStart(m) - day
    else if day >= MonthStart(m + 1) then day - MonthStart(m + 1) + 1
    else 0
  }

  lemma GapShrinks(day: int, m: int)
    ensures day < MonthStart(m) ==> 0 <= Gap(day, m - 1) < Gap(day, m)
    ensures day >= MonthStart(m + 1) ==> 0 <= Gap(day, m + 1) < Gap(day, m)
  {
    MonthsAbut(m - 1);
    MonthsAbut(m + 1);
  }

  /** The month a day falls in, searched for from month `m`. */
  function MonthFrom(day: int, m: int): (r: int)
    ensures IsMonthOf(r, day)
    decreases Gap(day, m)
  {
    GapShrinks(day, m);
    if day < MonthStart(m) then MonthFrom(day, m - 1)
    else if day >= MonthStart(m + 1) then MonthFrom(day, m + 1)
    else m
  }

  function MonthOf(day: int): (r: int)
    ensures IsMonthOf(r, day)
  {
    MonthFrom(day, 12)
  }

  lemma MonthIsUnique(m: int, day: int)
    requires IsMonthOf(m, day)
    ensures m == MonthOf(day)
  {
    var r := MonthOf(day);
    if r < m {
      if r + 1 < m {
        MonthsAscend(r + 1, m);
      }
    } else if m < r {
      if m + 1 < r {
        MonthsAscend(m + 1, r);
      }
    }
  }

  // ----- dates -----

  datatype Date = Date(year: int, month: int, day: int)

  predicate ValidDate(d: Date) {
    1 <= d.month <= 12 && 1 <= d.day <= DaysIn(d.year, d.month)
  }

  /** Month and day overflow are carried, as the Go date constructor and AddDate do. */
  function DayNumber(d: Date, addMonths: int := 0, addDays: int := 0): int {
    MonthStart(12 * d.year + d.month - 1 + addMonths) + d.day - 1 + addDays
  }

  function DateOf(day: int): (d: Date)
    ensures ValidDate(d)
  {
    var m := MonthOf(day);
    MonthsAbut(m);
    Date(m / 12, m % 12 + 1, day - MonthStart(m) + 1)
  }

  /** A day survives being written as a date and read back. */
  lemma DayRoundTrip(day: int)
    ensures DayNumber(DateOf(day)) == day
  {
    var m := MonthOf(day);
    assert 12 * (m / 12) + m % 12 == m;
  }

  /** A date survives being turned into a day number and back, so distinct dates are distinct days. */
  lemma DateRoundTrip(d: Date)
    requires ValidDate(d)
    ensures DateOf(DayNumber(d)) == d
  {
    var m := 12 * d.year + d.month - 1;
    assert m / 12 == d.year && m % 12 == d.month - 1;
    MonthsAbut(m);
    MonthIsUnique(m, DayNumber(d));
  }

  // ----- the calendar in plain numbers -----

  lemma MonthLengths(year: int)
    ensures [DaysIn(year, 1), DaysIn(year, 3), DaysIn(year, 4), DaysIn(year, 5), DaysIn(year, 6), DaysIn(year, 7)]
         == [31, 31, 30, 31, 30, 31]
    ensures [DaysIn(year, 8), DaysIn(year, 9), DaysIn(year, 10), DaysIn(year, 11), DaysIn(year, 12)]
         == [31, 30, 31, 30, 31]
    ensures DaysIn(year, 2) == if Leap(year) then 29 else 28
  {
  }

  lemma RestOf400(x: int, q: int, r: int)
    requires x == 400 * q + r && 0 <= r < 400
    ensures x % 400 == r
  {
  }

  lemma CenturyYear(n: int, c: int)
    requires 0 <= c < 4
    ensures Leap(400 * n + 100 * c) <==> c == 0
  {
    RestOf400(400 * n + 100 * c, n, 100 * c);
    MultipleOf100(400 * n + 100 * c, 4 * n + c);
    MultipleOf4(400 * n + 100 * c, 100 * n + 25 * c);
  }

  /** Of the centuries only every fourth is a leap year. */
  lemma CenturyYears(n: int)
    ensures Leap(400 * n) && !Leap(400 * n + 100) && !Leap(400 * n + 200) && !Leap(400 * n + 300)
  {
    CenturyYear(n, 0);
    CenturyYear(n, 1);
    CenturyYear(n, 2);
    CenturyYear(n, 3);
  }

  /** Of the other years exactly those divisible by four are. */
  lemma OrdinaryYears(n: int, year: int)
    requires 100 * n < year < 100 * n + 100
    ensures Leap(year) <==> exists k :: year == 4 * k
  {
    if Leap(year) {
      assert year == 4 * (year / 4);
    }
    if exists k :: year == 4 * k {
      var k :| year == 4 * k;
      MultipleOf4(year, k);
    }
  }

  lemma JanuaryFirst(year: int)
    ensures DayNumber(Date(year, 1, 1)) == YearStart(year)
  {
    YearStartsByFormula(year);
  }

  /** Year 1 starts at day 0 and 1970 at day 719162. */
  lemma Anchors()
    ensures YearStart(1) == 0 && YearStart(1970) == 719_162
  {
  }

  lemma QuotientsOf400(n: int)
    ensures (n + 400) / 4 == n / 4 + 100 && (n + 400) / 100 == n / 100 + 4 && (n + 400) / 400 == n / 400 + 1
  {
  }

  /** Four hundred years are 146097 days. */
  lemma FourCenturies(year: int)
    ensures DayNumber(Date(year + 400, 1, 1)) == DayNumber(Date(year, 1, 1)) + 146_097
  {
    JanuaryFirst(year);
    JanuaryFirst(year + 400);
    QuotientsOf400(year - 1);
  }
}
