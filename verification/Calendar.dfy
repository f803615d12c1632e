/** Days since 1970-01-01 to civil dates of the proleptic Gregorian calendar, and back. */
module Calendar {
  datatype Date = Date(year: int, month: int, day: int)

  // ----- The program's arithmetic --------------------------------------------

  /** Year of the 400-year era that starts in March, from the day of the era. */
  function YearOfEra(doe: int): int {
    (doe - doe / 1460 + doe / 36524 - doe / 146096) / 365
  }

  function CivilFromDays(days: int): Date {
    var z := days + 719468;
    var era := z / 146097;
    var doe := z % 146097;
    var yoe := YearOfEra(doe);
    var year := yoe + era * 400;
    var doy := doe - (365 * yoe + yoe / 4 - yoe / 100);
    var mp := (5 * doy + 2) / 153;
    var day := doy - (153 * mp + 2) / 5 + 1;
    var month := if mp < 10 then mp + 3 else mp - 9;
    Date(if month <= 2 then year + 1 else year, month, day)
  }

  // ----- The calendar ----------------------------------------------------------

  predicate IsLeap(year: int) {
    year % 4 == 0 && (year % 100 != 0 || year % 400 == 0)
  }

  function DaysInMonth(year: int, month: int): int {
    if month == 2 then (if IsLeap(year) then 29 else 28)
    else if month == 4 || month == 6 || month == 9 || month == 11 then 30
    else 31
  }

  predicate ValidDate(d: Date) {
    1 <= d.month <= 12 && 1 <= d.day <= DaysInMonth(d.year, d.month)
  }

  /** The date after `d`, straight from the month lengths. */
  function NextDay(d: Date): Date {
    if d.day < DaysInMonth(d.year, d.month) then Date(d.year, d.month, d.day + 1)
    else if d.month < 12 then Date(d.year, d.month + 1, 1)
    else Date(d.year + 1, 1, 1)
  }

  /** Days from 0000-03-01 to the first of March of the given year. */
  function MarchFirst(year: int): int {
    365 * year + year / 4 - year / 100 + year / 400
  }

  /** Days from the first of March to the first of the given month. */
  function MonthStart(month: int): int {
    if month == 3 then 0 else if month == 4 then 31 else if month == 5 then 61
    else if month == 6 then 92 else if month == 7 then 122 else if month == 8 then 153
    else if month == 9 then 184 else if month == 10 then 214 else if month == 11 then 245
    else if month == 12 then 275 else if month == 1 then 306 else 337
  }

  /** The inverse: the number of a date, counted from 1970-01-01. */
  function DaysFromCivil(d: Date): int {
    MarchFirst(if d.month <= 2 then d.year - 1 else d.year) + MonthStart(d.month) + d.day - 1 - 719468
  }

  // ----- The year of the era -----------------------------------------------------

  /** Days from the start of an era to its `y`-th March. */
  function EraMarch(y: int): int {
    365 * y + y / 4 - y / 100
  }

  /**
    The three corrections in `YearOfEra` cancel the leap days exactly: with the
    day written by century, four-year cycle and rest, the quotient is the year.
   */
  lemma YearOfEraByCycle(c: int, q: int, t: int)
    requires 0 <= c <= 3 && 0 <= q <= 24 && 0 <= t <= 1460
    requires q == 24 && c < 3 ==> t <= 1459
    ensures YearOfEra(36524 * c + 1461 * q + t) == 100 * c + 4 * q + (if t == 1460 then 3 else t / 365)
  {
    var doe := 36524 * c + 1461 * q + t;
    var f := if 24 * c + q + t >= 1460 then 1 else 0;
    assert doe / 1460 == 25 * c + q + f by {
      assert doe == 1460 * (25 * c + q) + (24 * c + q + t);
    }
    var last := if doe == 146096 then 1 else 0;
    assert doe / 36524 == c + last;
    assert doe / 146096 == last;
    var n := 365 * (100 * c + 4 * q) + (t - f);
    assert doe - doe / 1460 + doe / 36524 - doe / 146096 == n;
  }

  /** The year of the era is the one whose days contain `doe`. */
  lemma YearOfEraExact(doe: int)
    requires 0 <= doe < 146097
    ensures 0 <= YearOfEra(doe) <= 399
    ensures EraMarch(YearOfEra(doe)) <= doe
    ensures doe < EraMarch(YearOfEra(doe) + 1) + (if YearOfEra(doe) == 399 then 1 else 0)
  {
    var c := if doe == 146096 then 3 else doe / 36524;
    var r := doe - 36524 * c;
    var q := if r == 36524 then 24 else r / 1461;
    var t := r - 1461 * q;
    assert 0 <= c <= 3 && 0 <= r <= 36524 && (c < 3 ==> r < 36524);
    assert 0 <= q <= 24 && 0 <= t <= 1460;
    YearOfEraByCycle(c, q, t);
    var y := if t == 1460 then 3 else t / 365;
    EraMarchByCycle(c, q, y);
    EraMarchNext(c, q, y);
  }

  lemma EraMarchByCycle(c: int, q: int, y: int)
    requires 0 <= c <= 3 && 0 <= q <= 24 && 0 <= y <= 3
    ensures EraMarch(100 * c + 4 * q + y) == 36524 * c + 1461 * q + 365 * y
  {
    assert (100 * c + 4 * q + y) / 4 == 25 * c + q;
    assert (100 * c + 4 * q + y) / 100 == c;
  }

  lemma EraMarchNext(c: int, q: int, y: int)
    requires 0 <= c <= 3 && 0 <= q <= 24 && 0 <= y <= 3
    ensures EraMarch(100 * c + 4 * q + y + 1)
         == 36524 * c + 1461 * q + 365 * (y + 1) + (if y == 3 && q < 24 then 1 else 0)
  {
    var n := 100 * c + 4 * q + y + 1;
    assert n / 4 == 25 * c + q + (if y == 3 then 1 else 0);
    assert n / 100 == c + (if y == 3 && q == 24 then 1 else 0);
  }

  // ----- Dates are valid, and numbered consecutively ---------------------------------

  /** The month formula splits the days of a March-based year as the month lengths do. */
  lemma MonthOfDay(doy: int)
    requires 0 <= doy <= 365
    ensures var mp := (5 * doy + 2) / 153;
            var month := if mp < 10 then mp + 3 else mp - 9;
            && 0 <= mp <= 11
            && (153 * mp + 2) / 5 == MonthStart(month)
            && MonthStart(month) <= doy
            && (month == 2 || doy < MonthStart(month) + DaysInMonth(1, month))
  {
    var mp := (5 * doy + 2) / 153;
    if mp <= 2 { assert mp == 0 || mp == 1 || mp == 2; }
    else if mp <= 5 { assert mp == 3 || mp == 4 || mp == 5; }
    else if mp <= 8 { assert mp == 6 || mp == 7 || mp == 8; }
    else { assert mp == 9 || mp == 10 || mp == 11; }
  }

  /** The leap day closes a March-based year exactly when the calendar year it falls in is leap. */
  lemma MarchFirstStep(year: int)
    ensures MarchFirst(year + 1) == MarchFirst(year) + 365 + (if IsLeap(year + 1) then 1 else 0)
  {
    var n := year + 1;
    assert n / 4 == year / 4 + (if n % 4 == 0 then 1 else 0);
    assert n / 100 == year / 100 + (if n % 100 == 0 then 1 else 0);
    assert n / 400 == year / 400 + (if n % 400 == 0 then 1 else 0);
    assert n % 400 == 0 ==> n % 100 == 0;
    assert n % 100 == 0 ==> n % 4 == 0;
  }

  lemma MarchFirstOfEra(era: int, yoe: int)
    requires 0 <= yoe <= 400
    ensures MarchFirst(yoe + era * 400) == 146097 * era + EraMarch(yoe) + (if yoe == 400 then 1 else 0)
  {
    assert (yoe + era * 400) / 4 == yoe / 4 + 100 * era;
    assert (yoe + era * 400) / 100 == yoe / 100 + 4 * era;
    assert (yoe + era * 400) / 400 == yoe / 400 + era;
  }

  /** The day of the March-based year, in range for that year. */
  lemma DayOfYearRange(z: int)
    ensures var yoe := YearOfEra(z % 146097);
            var year := yoe + z / 146097 * 400;
            var doy := z % 146097 - EraMarch(yoe);
            && 0 <= doy < 365 + (if IsLeap(year + 1) then 1 else 0)
            && MarchFirst(year) + doy == z
  {
    hide YearOfEra, IsLeap, MarchFirst;
    var era := z / 146097;
    var doe := z % 146097;
    var yoe := YearOfEra(doe);
    var year := yoe + era * 400;
    YearOfEraExact(doe);
    MarchFirstOfEra(era, yoe);
    MarchFirstOfEra(era, yoe + 1);
    assert year + 1 == yoe + 1 + era * 400;
    MarchFirstStep(year);
  }

  /**
    For every day count the result is a valid date, and numbering that date
    gives the day count back.
   */
  lemma CivilFromDaysValid(days: int)
    ensures ValidDate(CivilFromDays(days))
    ensures DaysFromCivil(CivilFromDays(days)) == days
  {
    hide YearOfEra, IsLeap, MarchFirst, MonthStart;
    var z := days + 719468;
    DayOfYearRange(z);
    MonthOfDay(z % 146097 - EraMarch(YearOfEra(z % 146097)));
    FebruaryStart();
  }

  lemma FebruaryStart()
    ensures MonthStart(2) == 337
  {
  }

  /** The numbering is injective on valid dates: it grows along the calendar. */
  lemma DaysFromCivilInjective(a: Date, b: Date)
    requires ValidDate(a) && ValidDate(b) && DaysFromCivil(a) == DaysFromCivil(b)
    ensures a == b
  {
    var ya := if a.month <= 2 then a.year - 1 else a.year;
    var yb := if b.month <= 2 then b.year - 1 else b.year;
    MarchYearBounds(a);
    MarchYearBounds(b);
    if ya < yb { MarchFirstMonotone(ya + 1, yb); }
    if yb < ya { MarchFirstMonotone(yb + 1, ya); }
    assert ya == yb;
    MonthStartsApart(a, b);
    MonthStartsApart(b, a);
  }

  lemma {:induction false} MarchFirstMonotone(a: int, b: int)
    requires a <= b
    ensures MarchFirst(a) <= MarchFirst(b)
    decreases b - a
  {
    if a < b {
      MarchFirstStep(b - 1);
      MarchFirstMonotone(a, b - 1);
    }
  }

  lemma MarchYearBounds(d: Date)
    requires ValidDate(d)
    ensures var y := if d.month <= 2 then d.year - 1 else d.year;
            MarchFirst(y) <= DaysFromCivil(d) + 719468 < MarchFirst(y + 1)
  {
    MarchFirstStep(if d.month <= 2 then d.year - 1 else d.year);
  }

  lemma MonthStartsApart(a: Date, b: Date)
    requires ValidDate(a) && ValidDate(b)
    requires (if a.month <= 2 then a.year - 1 else a.year) == (if b.month <= 2 then b.year - 1 else b.year)
    ensures MonthStart(a.month) < MonthStart(b.month) ==>
              MonthStart(a.month) + a.day <= MonthStart(b.month)
    ensures MonthStart(a.month) == MonthStart(b.month) ==> a.month == b.month
  {
  }

  /** Every valid date is hit: the two numberings are inverse bijections. */
  lemma CivilDaysBijection(d: Date)
    requires ValidDate(d)
    ensures CivilFromDays(DaysFromCivil(d)) == d
  {
    CivilFromDaysValid(DaysFromCivil(d));
    DaysFromCivilInjective(CivilFromDays(DaysFromCivil(d)), d);
  }

  lemma NextDayNumber(d: Date)
    requires ValidDate(d)
    ensures ValidDate(NextDay(d))
    ensures DaysFromCivil(NextDay(d)) == DaysFromCivil(d) + 1
  {
    if d.month == 2 && d.day == DaysInMonth(d.year, 2) {
      MarchFirstStep(d.year - 1);
    }
  }

  lemma EpochDate()
    ensures CivilFromDays(0) == Date(1970, 1, 1)
  {
    assert 719468 / 146097 == 4 && 719468 % 146097 == 135080;
    assert YearOfEra(135080) == 369;
  }

  /** Day 0 is 1970-01-01, and each following day is the calendar successor of the last. */
  lemma CivilFromDaysSuccessor(days: int)
    ensures CivilFromDays(0) == Date(1970, 1, 1)
    ensures CivilFromDays(days + 1) == NextDay(CivilFromDays(days))
  {
    hide CivilFromDays, DaysFromCivil, NextDay;
    EpochDate();
    CivilFromDaysValid(days);
    NextDayNumber(CivilFromDays(days));
    CivilDaysBijection(NextDay(CivilFromDays(days)));
  }
}
