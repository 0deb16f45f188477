/** `CivilFromDays` against the calendar, for every day number. */
module CivilProofs {
  import opened Calendar
  import opened Timestamp

  /** Days before the first of March of `year`, counted from 0000-03-01. */
  function MarchStart(year: int): int {
    365 * year + year / 4 - year / 100 + year / 400
  }

  function YearOfEra(doe: int): int {
    (doe - doe / 1460 + doe / 36524 - doe / 146096) / 365
  }

  lemma Multiple(k: int, d: int)
    requires 0 < k
    ensures d >= 1 ==> k * d >= k
    ensures d <= -1 ==> k * d <= -k
  {}

  lemma Quotient(n: int, k: int, q: int)
    requires 0 < k && k * q <= n < k * q + k
    ensures n / k == q
  {
    assert n == k * (n / k) + n % k;
    assert k * (n / k - q) == k * (n / k) - k * q;
    Multiple(k, n / k - q);
  }

  /** The coordinates of a day of era: 400-year cycle, century, leap cycle, day in leap cycle. */
  predicate Coordinates(doe: int, e: int, c: int, q: int, r: int) {
    && doe == 146097 * e + 36524 * c + 1461 * q + r
    && 0 <= e <= 1 && 0 <= c <= 3 && 0 <= q <= 24 && 0 <= r <= 1460
    && (c < 3 && q == 24 ==> r < 1460)
  }

  lemma HasCoordinates(doe: int) returns (e: int, c: int, q: int, r: int)
    requires 0 <= doe < 292194
    ensures Coordinates(doe, e, c, q, r)
  {
    e := doe / 146097;
    var d := doe - 146097 * e;
    c := if d >= 109572 then 3 else d / 36524;
    var d' := d - 36524 * c;
    q := if d' >= 35064 then 24 else d' / 1461;
    r := d' - 1461 * q;
  }

  /** Which year of the leap cycle holds day `r`, the leap day belonging to the last. */
  function CycleYear(r: int): int {
    if r >= 1095 then 3 else r / 365
  }

  /** The year-of-era formula, evaluated in coordinates. */
  lemma YearOfEraValue(doe: int, e: int, c: int, q: int, r: int)
    requires Coordinates(doe, e, c, q, r) && doe < 292193
    ensures YearOfEra(doe) == 400 * e + 100 * c + 4 * q + CycleYear(r)
  {
    var x := if 97 * e + 24 * c + q + r >= 1460 then 1 else 0;
    Quotient(doe, 1460, 100 * e + 25 * c + q + x);
    var w := if e + 1461 * q + r >= 36524 then 1 else 0;
    Quotient(doe, 36524, 4 * e + c + w);
    var v := if e + 36524 * c + 1461 * q + r >= 146096 then 1 else 0;
    Quotient(doe, 146096, e + v);
    Quotient(doe - doe / 1460 + doe / 36524 - doe / 146096, 365, 400 * e + 100 * c + 4 * q + CycleYear(r));
  }

  lemma MarchStartValue(e: int, c: int, q: int, y: int)
    requires 0 <= c <= 3 && 0 <= q <= 24 && 0 <= y <= 3
    ensures MarchStart(400 * e + 100 * c + 4 * q + y) == 146097 * e + 36524 * c + 1461 * q + 365 * y
  {
    var n := 400 * e + 100 * c + 4 * q + y;
    Quotient(n, 4, 100 * e + 25 * c + q);
    Quotient(n, 100, 4 * e + c);
    Quotient(n, 400, e);
  }

  /** The year-of-era formula picks the March-based year that holds the day. */
  lemma YearOfEraCorrect(doe: int)
    requires 0 <= doe < 292193
    ensures 0 <= YearOfEra(doe) < 800
    ensures MarchStart(YearOfEra(doe)) <= doe < MarchStart(YearOfEra(doe) + 1)
  {
    var e, c, q, r := HasCoordinates(doe);
    var y := CycleYear(r);
    YearOfEraValue(doe, e, c, q, r);
    MarchStartValue(e, c, q, y);
    if y < 3 {
      MarchStartValue(e, c, q, y + 1);
    } else if q < 24 {
      MarchStartValue(e, c, q + 1, 0);
    } else if c < 3 {
      MarchStartValue(e, c + 1, 0, 0);
    } else {
      MarchStartValue(e + 1, 0, 0, 0);
    }
  }

  /** The date `doy` days after the first of March of `year`. */
  function FromMarch(year: int, doy: int): Date {
    var mp := (5 * doy + 2) / 153;
    var month := mp + if mp < 10 then 3 else -9;
    Date(year + if month <= 2 then 1 else 0, month, doy - (153 * mp + 2) / 5 + 1)
  }

  lemma MarchStartLeap(year: int)
    ensures MarchStart(year + 1) - MarchStart(year) == DaysInYear(year + 1)
  {
    DivisionStep4(year + 1);
    DivisionStep100(year + 1);
    DivisionStep400(year + 1);
    CenturyIsMultiple(year + 1);
  }

  /** Day of the March-based year on which March-based month `mp` starts. */
  function MonthStart(mp: int): int
    requires 0 <= mp <= 11
  {
    [0, 31, 61, 92, 122, 153, 184, 214, 245, 275, 306, 337][mp]
  }

  /** The month formulas pick the March-based month that holds the day. */
  lemma MonthOfDoy(doy: int)
    requires 0 <= doy <= 365
    ensures var mp := (5 * doy + 2) / 153;
      && 0 <= mp <= 11
      && (153 * mp + 2) / 5 == MonthStart(mp) <= doy
      && (mp < 11 ==> doy < MonthStart(mp + 1))
  {}

  lemma FromMarchValid(year: int, doy: int)
    requires 0 <= doy && MarchStart(year) + doy < MarchStart(year + 1)
    ensures ValidDate(FromMarch(year, doy))
    ensures doy <= 365
  {
    MarchStartLeap(year);
    MonthOfDoy(doy);
  }

  /** Counting from March reaches a real date with the expected day number. */
  lemma FromMarchCorrect(year: int, doy: int)
    requires 0 <= doy && MarchStart(year) + doy < MarchStart(year + 1)
    ensures ValidDate(FromMarch(year, doy))
    ensures DayNumber(FromMarch(year, doy)) == MarchStart(year) + doy - 719468
  {
    FromMarchValid(year, doy);
    MonthOfDoy(doy);
    var date := FromMarch(year, doy);
    DaysToMonthTable(date.year, date.month);
    DaysToYearClosed(year + 1);
    DaysToYearStep(year);
  }

  /** Two day offsets in a March-based year never share a date. */
  lemma FromMarchDistinct(year: int, doy: int)
    requires 0 <= doy <= 365
    ensures FromMarch(year, doy + 1) != FromMarch(year, doy)
  {}

  lemma MarchStartPeriod(year: int, era: int)
    ensures MarchStart(year + 400 * era) == MarchStart(year) + 146097 * era
  {
    Quotient(year + 400 * era, 4, year / 4 + 100 * era);
    Quotient(year + 400 * era, 100, year / 100 + 4 * era);
    Quotient(year + 400 * era, 400, year / 400 + era);
  }

  /** The days on which the era comes out right: those from 0000-03-01 on, where the first branch
      of src/timestamp.rs:55 is taken, and the last day of each earlier 400-year era. */
  predicate EraExact(days: int) {
    days >= -719468 || (days + 719468) % 146097 == 146096
  }

  lemma DayOfEra(days: int)
    ensures 0 <= CivilWork(days).doe < 292193
    ensures CivilWork(days).doe < 146097 <==> EraExact(days)
    ensures days >= -719468 <==> CivilWork(days).era >= 0
  {}

  lemma CivilIsFromMarch(days: int)
    ensures var w := CivilWork(days); CivilFromDays(days) == FromMarch(w.yoe + 400 * w.era, w.doy)
  {}

  lemma DoyFromMarch(days: int)
    ensures var w := CivilWork(days);
      w.yoe == YearOfEra(w.doe) && w.doy == w.doe - MarchStart(w.yoe) + w.yoe / 400
  {}

  lemma MarchPlace(yoe: int, era: int, doe: int)
    requires MarchStart(yoe) <= doe < MarchStart(yoe + 1)
    ensures MarchStart(yoe + 400 * era) + (doe - MarchStart(yoe)) == doe + 146097 * era
    ensures doe + 146097 * era < MarchStart(yoe + 400 * era + 1)
  {
    MarchStartPeriod(yoe, era);
    MarchStartPeriod(yoe + 1, era);
    assert yoe + 400 * era + 1 == (yoe + 1) + 400 * era;
  }

  lemma WorkSplit(days: int)
    ensures days + 719468 == CivilWork(days).doe + 146097 * CivilWork(days).era
  {}

  /** What the arithmetic computes in all cases: the March-based year is always right, and outside
      `EraExact` the day of that year is one too large. */
  lemma CivilValue(days: int) returns (year: int, doy: int)
    ensures year == CivilWork(days).yoe + 400 * CivilWork(days).era
    ensures 0 <= doy && MarchStart(year) + doy < MarchStart(year + 1)
    ensures MarchStart(year) + doy == days + 719468
    ensures CivilWork(days).doy == if EraExact(days) then doy else doy + 1
    ensures CivilFromDays(days) == FromMarch(year, CivilWork(days).doy)
  {
    var w := CivilWork(days);
    CivilIsFromMarch(days);
    DoyFromMarch(days);
    DayOfEra(days);
    WorkSplit(days);
    YearOfEraCorrect(w.doe);
    YearSide(w.doe);
    MarchPlace(w.yoe, w.era, w.doe);
    year := w.yoe + 400 * w.era;
    doy := w.doe - MarchStart(w.yoe);
  }

  lemma YearSide(doe: int)
    requires 0 <= doe < 292193
    ensures YearOfEra(doe) / 400 == if doe < 146097 then 0 else 1
  {
    var e, c, q, r := HasCoordinates(doe);
    YearOfEraValue(doe, e, c, q, r);
  }

  /** `civil_from_days` names the right day of the Gregorian calendar exactly on `EraExact`. */
  lemma CivilCorrectIff(days: int)
    ensures EraExact(days) <==>
      ValidDate(CivilFromDays(days)) && DayNumber(CivilFromDays(days)) == days
  {
    var year, doy := CivilValue(days);
    FromMarchCorrect(year, doy);
    if !EraExact(days) {
      MarchStartLeap(year);
      FromMarchDistinct(year, doy);
      var date := CivilFromDays(days);
      if ValidDate(date) && DayNumber(date) == days {
        DayNumberInjective(date, FromMarch(year, doy));
      }
    }
  }

  /** A concrete failing day: 0000-02-28 comes out as the leap day that follows it. */
  lemma CivilCollision()
    ensures CivilFromDays(-719470) == CivilFromDays(-719469) == Date(0, 2, 29)
    ensures DayNumber(Date(0, 2, 28)) == -719470
  {
    assert CivilWork(-719470) == Civil(-2, -2, 292192, 799, 365, 11);
    assert CivilWork(-719469) == Civil(-1, -1, 146096, 399, 365, 11);
    DaysToYearClosed(0);
  }

  /** Every date is recovered from its day number, given the era comes out right. */
  lemma CivilInverse(date: Date)
    requires ValidDate(date)
    ensures CivilFromDays(DayNumber(date)) == date <==> EraExact(DayNumber(date))
  {
    var days := DayNumber(date);
    CivilCorrectIff(days);
    if EraExact(days) {
      DayNumberInjective(CivilFromDays(days), date);
    }
  }

  lemma RightDate(days: int) returns (date: Date)
    requires EraExact(days)
    ensures date == CivilFromDays(days) && ValidDate(date) && DayNumber(date) == days
  {
    CivilCorrectIff(days);
    date := CivilFromDays(days);
  }

  /** From 0000-03-01 on, consecutive days are consecutive dates. */
  lemma CivilSuccessor(days: int)
    requires days >= -719468
    ensures CivilFromDays(days + 1) == NextDay(CivilFromDays(days))
  {
    var date := RightDate(days);
    var next := RightDate(days + 1);
    NextDayNumber(date);
    DayNumberInjective(next, NextDay(date));
  }

  lemma EpochDate()
    ensures CivilFromDays(0) == EPOCH
  {
    CivilInverse(EPOCH);
  }

  /** The ranges noted beside the arithmetic, and the casts to `u32` that lose nothing. */
  lemma WorkingRanges(days: int)
    ensures var w := CivilWork(days);
      && 0 <= w.doe && 0 <= w.doe - w.doe / 1460 + w.doe / 36524 - w.doe / 146096
      && 0 <= w.yoe && 0 <= w.doy <= 366 && 0 <= w.mp <= 11
      && (EraExact(days) ==> w.doe <= 146096 && w.yoe <= 399 && w.doy <= 365)
    ensures 1 <= CivilFromDays(days).month <= 12 && 1 <= CivilFromDays(days).day <= 31
  {
    DayOfEra(days);
    var year, doy := CivilValue(days);
    MarchStartLeap(year);
    YearOfEraCorrect(CivilWork(days).doe);
    YearSide(CivilWork(days).doe);
  }
}
