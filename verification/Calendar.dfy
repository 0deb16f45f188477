/** The proleptic Gregorian calendar, defined from its leap rule and its month lengths
    (section 5.7 and Appendix C of RFC 3339) without reference to the client's arithmetic. */
module Calendar {

  datatype Date = Date(year: int, month: int, day: int)

  predicate IsLeap(year: int) {
    year % 4 == 0 && (year % 100 != 0 || year % 400 == 0)
  }

  function DaysInMonth(year: int, month: int): int {
    if month == 2 then (if IsLeap(year) then 29 else 28)
    else if month in {4, 6, 9, 11} then 30
    else 31
  }

  predicate ValidDate(date: Date) {
    && 1 <= date.month <= 12
    && 1 <= date.day <= DaysInMonth(date.year, date.month)
  }

  /** The day after `date`. */
  function NextDay(date: Date): Date {
    if date.day < DaysInMonth(date.year, date.month) then date.(day := date.day + 1)
    else if date.month < 12 then Date(date.year, date.month + 1, 1)
    else Date(date.year + 1, 1, 1)
  }

  predicate Before(a: Date, b: Date) {
    || a.year < b.year
    || (a.year == b.year && a.month < b.month)
    || (a.year == b.year && a.month == b.month && a.day < b.day)
  }

  function DaysInYear(year: int): int {
    if IsLeap(year) then 366 else 365
  }

  /** Days from 1970-01-01 to the first of January of `year`, counted year by year. */
  function DaysToYear(year: int): int
    decreases if year >= 1970 then year - 1970 else 1970 - year
  {
    if year == 1970 then 0
    else if year > 1970 then DaysToYear(year - 1) + DaysInYear(year - 1)
    else DaysToYear(year + 1) - DaysInYear(year)
  }

  /** Days from the first of January of `year` to the first of `month`, counted month by month. */
  function DaysToMonth(year: int, month: int): int
    requires 1 <= month <= 12
  {
    if month == 1 then 0 else DaysToMonth(year, month - 1) + DaysInMonth(year, month - 1)
  }

  /** Days from 1970-01-01 to `date`. */
  function DayNumber(date: Date): int
    requires 1 <= date.month <= 12
  {
    DaysToYear(date.year) + DaysToMonth(date.year, date.month) + date.day - 1
  }

  /** 1970-01-01 is day 0. */
  const EPOCH := Date(1970, 1, 1)

  function LeapDaysBefore(year: int): int {
    (year - 1) / 4 - (year - 1) / 100 + (year - 1) / 400
  }

  lemma DivisionStep4(n: int)
    ensures n / 4 - (n - 1) / 4 == if n % 4 == 0 then 1 else 0
  {}

  lemma DivisionStep100(n: int)
    ensures n / 100 - (n - 1) / 100 == if n % 100 == 0 then 1 else 0
  {}

  lemma DivisionStep400(n: int)
    ensures n / 400 - (n - 1) / 400 == if n % 400 == 0 then 1 else 0
  {}

  lemma MultipleOf4(k: int)
    ensures 4 * k % 4 == 0
  {}

  lemma MultipleOf100(k: int)
    ensures 100 * k % 100 == 0
  {}

  lemma CenturyIsMultiple(n: int)
    ensures n % 100 == 0 ==> n % 4 == 0
    ensures n % 400 == 0 ==> n % 100 == 0
  {
    var c, e := n / 100, n / 400;
    MultipleOf4(25 * c);
    MultipleOf100(4 * e);
    assert n % 100 == 0 ==> n == 4 * (25 * c);
    assert n % 400 == 0 ==> n == 100 * (4 * e);
  }

  lemma LeapDayStep(year: int)
    ensures LeapDaysBefore(year + 1) - LeapDaysBefore(year) == if IsLeap(year) then 1 else 0
  {
    DivisionStep4(year);
    DivisionStep100(year);
    DivisionStep400(year);
    CenturyIsMultiple(year);
  }

  lemma {:induction false} DaysToYearClosed(year: int)
    ensures DaysToYear(year) == 365 * year + LeapDaysBefore(year) - 719527
    decreases if year >= 1970 then year - 1970 else 1970 - year
  {
    if year > 1970 {
      DaysToYearClosed(year - 1);
      LeapDayStep(year - 1);
    } else if year < 1970 {
      DaysToYearClosed(year + 1);
      LeapDayStep(year);
    }
  }

  lemma DaysToMonthTable(year: int, month: int)
    requires 1 <= month <= 12
    ensures DaysToMonth(year, month) ==
      [0, 31, 59, 90, 120, 151, 181, 212, 243, 273, 304, 334][month - 1]
      + if month > 2 && IsLeap(year) then 1 else 0
  {
    if month > 1 {
      DaysToMonthTable(year, month - 1);
    }
  }

  /** The day number counts days: stepping to the next day adds one. */
  lemma NextDayNumber(date: Date)
    requires ValidDate(date)
    ensures ValidDate(NextDay(date))
    ensures DayNumber(NextDay(date)) == DayNumber(date) + 1
  {
    if date.day == DaysInMonth(date.year, date.month) && date.month == 12 {
      DaysToMonthTable(date.year, 12);
      DaysToYearStep(date.year);
    }
  }

  /** Day numbers increase with dates. */
  lemma DayNumberMonotone(a: Date, b: Date)
    requires ValidDate(a) && ValidDate(b) && Before(a, b)
    ensures DayNumber(a) < DayNumber(b)
  {
    if a.year < b.year {
      WithinYear(a);
      WithinYear(b);
      DaysToYearMonotone(a.year + 1, b.year);
      DaysToYearStep(a.year);
    } else if a.month < b.month {
      DaysToMonthGrows(a.year, a.month, b.month);
    }
  }

  lemma {:induction false} DaysToMonthGrows(year: int, early: int, late: int)
    requires 1 <= early < late <= 12
    ensures DaysToMonth(year, early) + DaysInMonth(year, early) <= DaysToMonth(year, late)
    decreases late
  {
    if early < late - 1 {
      DaysToMonthGrows(year, early, late - 1);
    }
  }

  lemma DaysToYearStep(year: int)
    ensures DaysToYear(year + 1) == DaysToYear(year) + DaysInYear(year)
  {
    DaysToYearClosed(year);
    DaysToYearClosed(year + 1);
    LeapDayStep(year);
  }

  lemma WithinYear(date: Date)
    requires ValidDate(date)
    ensures DaysToYear(date.year) <= DayNumber(date) < DaysToYear(date.year) + DaysInYear(date.year)
  {
    DaysToMonthTable(date.year, date.month);
  }

  lemma {:induction false} DaysToYearMonotone(a: int, b: int)
    requires a <= b
    ensures DaysToYear(a) <= DaysToYear(b)
    decreases b - a
  {
    if a < b {
      DaysToYearMonotone(a, b - 1);
      DaysToYearStep(b - 1);
    }
  }

  /** A day number names at most one date. */
  lemma DayNumberInjective(a: Date, b: Date)
    requires ValidDate(a) && ValidDate(b) && DayNumber(a) == DayNumber(b)
    ensures a == b
  {
    if Before(a, b) {
      DayNumberMonotone(a, b);
    } else if Before(b, a) {
      DayNumberMonotone(b, a);
    }
  }
}
