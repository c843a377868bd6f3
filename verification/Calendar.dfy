/** The proleptic Gregorian calendar as Python's datetime.date counts it. */
module Calendar {
  datatype Date = Date(year: int, month: int, day: int)

  const MAX_YEAR := 9999

  predicate IsLeap(year: int) { year % 4 == 0 && (year % 100 != 0 || year % 400 == 0) }

  function DaysInMonth(year: int, month: int): int
  {
    if month == 2 then (if IsLeap(year) then 29 else 28)
    else if month == 4 || month == 6 || month == 9 || month == 11 then 30
    else 31
  }

  predicate ValidDate(d: Date)
  {
    1 <= d.year <= MAX_YEAR && 1 <= d.month <= 12 && 1 <= d.day <= DaysInMonth(d.year, d.month)
  }

  const DAYS_BEFORE_MONTH := [0, 31, 59, 90, 120, 151, 181, 212, 243, 273, 304, 334]

  function DaysBeforeMonth(year: int, month: int): int
    requires 1 <= month <= 12
  {
    DAYS_BEFORE_MONTH[month - 1] + if month > 2 && IsLeap(year) then 1 else 0
  }

  /** Days in the years before `year`, counted year by year. */
  function DaysBeforeYear(year: int): int
  {
    if year <= 1 then 0 else DaysBeforeYear(year - 1) + if IsLeap(year - 1) then 366 else 365
  }

  /** date.toordinal: 1 January of year 1 is day 1. */
  function Ordinal(d: Date): int
    requires ValidDate(d)
  {
    DaysBeforeYear(d.year) + DaysBeforeMonth(d.year, d.month) + d.day
  }

  /** date.weekday of an ordinal: Monday is 0. */
  function Weekday(ordinal: int): int { (ordinal + 6) % 7 }

  /** Comparison of dates is lexicographic. */
  predicate Before(a: Date, b: Date)
  {
    a.year < b.year || (a.year == b.year && (a.month < b.month || (a.month == b.month && a.day < b.day)))
  }

  predicate AtMost(a: Date, b: Date) { a == b || Before(a, b) }

  function FirstOfMonth(d: Date): Date { d.(day := 1) }

  function LastOfMonth(d: Date): Date { d.(day := DaysInMonth(d.year, d.month)) }

  /** d + timedelta(days=1), where that does not overflow. */
  function NextDay(d: Date): Date
  {
    if d.day < DaysInMonth(d.year, d.month) then d.(day := d.day + 1)
    else if d.month < 12 then Date(d.year, d.month + 1, 1)
    else Date(d.year + 1, 1, 1)
  }

  const LAST_DATE := Date(MAX_YEAR, 12, 31)

  /** Leap years up to `n`, by the closed form, step by step. */
  lemma LeapStep(n: int)
    ensures n / 4 - n / 100 + n / 400 == (n - 1) / 4 - (n - 1) / 100 + (n - 1) / 400 + if IsLeap(n) then 1 else 0
  {
    DivisionSteps(n, 4);
    DivisionSteps(n, 100);
    DivisionSteps(n, 400);
  }

  /** The closed form datetime uses for the same count. */
  lemma {:induction false} DaysBeforeYearClosedForm(year: int)
    requires year >= 1
    ensures var y := year - 1; DaysBeforeYear(year) == y * 365 + y / 4 - y / 100 + y / 400
  {
    if year > 1 {
      DaysBeforeYearClosedForm(year - 1);
      LeapStep(year - 1);
    }
  }

  lemma DivisionSteps(n: int, k: int)
    requires k > 0
    ensures n / k == (n - 1) / k + if n % k == 0 then 1 else 0
  {
    var q, r := (n - 1) / k, (n - 1) % k;
    assert n - 1 == q * k + r;
    if r == k - 1 {
      assert n == (q + 1) * k;
      DivisionIs(n, k, q + 1, 0);
    } else {
      DivisionIs(n, k, q, r + 1);
    }
  }

  lemma DivisionIs(n: int, k: int, q: int, r: int)
    requires k > 0 && n == q * k + r && 0 <= r < k
    ensures n / k == q && n % k == r
  {
    var d := n / k - q;
    assert d * k == r - n % k;
    MultipleIsFar(d, k);
    assert d == 0;
  }

  lemma MultipleIsFar(d: int, k: int)
    requires k > 0
    ensures d >= 1 ==> d * k >= k
    ensures d <= -1 ==> d * k <= -k
  {
  }

  lemma {:induction false} YearsMonotone(a: int, b: int)
    requires 1 <= a <= b
    ensures DaysBeforeYear(a) <= DaysBeforeYear(b)
    decreases b - a
  {
    if a < b {
      YearsMonotone(a, b - 1);
    }
  }

  lemma MonthLength(year: int, month: int)
    requires 1 <= month < 12
    ensures DaysBeforeMonth(year, month + 1) == DaysBeforeMonth(year, month) + DaysInMonth(year, month)
  {
  }

  lemma {:induction false} MonthsMonotone(year: int, a: int, b: int)
    requires 1 <= a <= b <= 12
    ensures DaysBeforeMonth(year, a) <= DaysBeforeMonth(year, b)
    decreases b - a
  {
    if a < b {
      MonthLength(year, b - 1);
      MonthsMonotone(year, a, b - 1);
    }
  }

  /** Earlier dates have smaller ordinals. */
  lemma BeforeIsSmaller(a: Date, b: Date)
    requires ValidDate(a) && ValidDate(b) && Before(a, b)
    ensures Ordinal(a) < Ordinal(b)
  {
    if a.year < b.year {
      YearsMonotone(a.year + 1, b.year);
      MonthsMonotone(a.year, a.month, 12);
      if a.month < 12 {
        MonthLength(a.year, a.month);
        MonthsMonotone(a.year, a.month + 1, 12);
      }
    } else if a.month < b.month {
      MonthLength(a.year, a.month);
      MonthsMonotone(a.year, a.month + 1, b.month);
    }
  }

  /** Date comparison and ordinal comparison are the same order, and ordinals identify dates. */
  lemma OrderIsOrdinal(a: Date, b: Date)
    requires ValidDate(a) && ValidDate(b)
    ensures Before(a, b) <==> Ordinal(a) < Ordinal(b)
    ensures AtMost(a, b) <==> Ordinal(a) <= Ordinal(b)
    ensures a == b <==> Ordinal(a) == Ordinal(b)
  {
    if Before(a, b) {
      BeforeIsSmaller(a, b);
    } else if a != b {
      BeforeIsSmaller(b, a);
    }
  }

  /** Adding a day adds one to the ordinal, across month and year ends. */
  lemma NextDayOrdinal(d: Date)
    requires ValidDate(d) && d != LAST_DATE
    ensures ValidDate(NextDay(d)) && Ordinal(NextDay(d)) == Ordinal(d) + 1
  {
    if d.day == DaysInMonth(d.year, d.month) {
      if d.month < 12 {
        MonthLength(d.year, d.month);
      }
    }
  }

  /** Calendar months do not overlap. */
  lemma MonthsAreDisjoint(a: Date, b: Date, x: int)
    requires ValidDate(a) && ValidDate(b) && a.day == 1 && b.day == 1
    requires Ordinal(a) <= x <= Ordinal(LastOfMonth(a)) && Ordinal(b) <= x <= Ordinal(LastOfMonth(b))
    ensures a == b
  {
    OrderIsOrdinal(LastOfMonth(a), b);
    OrderIsOrdinal(LastOfMonth(b), a);
  }

  /** Any seven consecutive days contain a Monday. */
  lemma SevenDaysHaveAMonday(after: int) returns (monday: int)
    ensures after < monday <= after + 7 && Weekday(monday) == 0
  {
    monday := after + 7 - (after + 6) % 7;
  }

  predicate NewYearsDayIs(year: int, ordinal: int)
  {
    1 <= year <= 9999 && Ordinal(Date(year, 1, 1)) == ordinal
  }

  lemma NewYearsOrdinal(year: int, ordinal: int)
    requires 1 <= year <= 9999
    requires var y := year - 1; ordinal == y * 365 + y / 4 - y / 100 + y / 400 + 1
    ensures NewYearsDayIs(year, ordinal)
  {
    DaysBeforeYearClosedForm(year);
  }

  /** Day numbers of some first days of January, as datetime counts them; that of 2024 was a Monday. */
  lemma CalendarIsAnchored()
    ensures NewYearsDayIs(1970, 719163) && NewYearsDayIs(2015, 735599)
    ensures NewYearsDayIs(2024, 738886) && NewYearsDayIs(2040, 744730)
    ensures Weekday(738886) == 0
  {
    NewYearsOrdinal(1970, 719163);
    NewYearsOrdinal(2015, 735599);
    NewYearsOrdinal(2024, 738886);
    NewYearsOrdinal(2040, 744730);
  }
}
