/**
 * Dates as Python's `datetime` sees them: (year, month, day) triples of the
 * proleptic Gregorian calendar with years 1 to 9999, compared
 * lexicographically, subtracted through their ordinal (day 1 is 0001-01-01),
 * and rebuilt with `replace`, which refuses a triple that is not a date.
 */
module Calendar {

  datatype Option<+T> = None | Some(value: T)

  /** `datetime.MINYEAR` and `datetime.MAXYEAR`. */
  const MinYear := 1
  const MaxYear := 9999

  datatype Date = Date(year: int, month: int, day: int)

  predicate IsLeapYear(y: int) {
    y % 4 == 0 && (y % 100 != 0 || y % 400 == 0)
  }

  function DaysInMonth(y: int, m: int): (n: int)
    requires 1 <= m <= 12
    ensures 28 <= n <= 31
    ensures m != 2 ==> n >= 30
  {
    if m == 2 then (if IsLeapYear(y) then 29 else 28)
    else if m == 4 || m == 6 || m == 9 || m == 11 then 30
    else 31
  }

  /** Two consecutive years are never both leap years. */
  lemma NoConsecutiveLeapYears(y: int)
    ensures IsLeapYear(y) ==> !IsLeapYear(y + 1) && !IsLeapYear(y - 1)
  {
  }

  function DaysInYear(y: int): int {
    if IsLeapYear(y) then 366 else 365
  }

  /** The triples `datetime` accepts. */
  predicate IsValid(d: Date) {
    && MinYear <= d.year <= MaxYear
    && 1 <= d.month <= 12
    && 1 <= d.day <= DaysInMonth(d.year, d.month)
  }

  type ValidDate = d: Date | IsValid(d) witness Date(1, 1, 1)

  /** 29 February, the one month and day that does not exist in every year. */
  predicate IsLeapDay(d: Date) {
    d.month == 2 && d.day == 29
  }

  /** `a < b` on dates: lexicographic on (year, month, day). */
  predicate Before(a: Date, b: Date) {
    || a.year < b.year
    || (a.year == b.year && a.month < b.month)
    || (a.year == b.year && a.month == b.month && a.day < b.day)
  }

  /** The month and day of `a` come later in the year than those of `b`. */
  predicate LaterInYear(a: Date, b: Date) {
    a.month > b.month || (a.month == b.month && a.day > b.day)
  }

  /**
   * The date with the given fields, or None when that triple is not a date:
   * the check `datetime` makes in its constructor and in `replace`.
   */
  function MakeDate(year: int, month: int, day: int): Option<ValidDate> {
    if IsValid(Date(year, month, day)) then Some(Date(year, month, day)) else None
  }

  /** `d.replace(year=year)`. */
  function ReplaceYear(d: ValidDate, year: int): Option<ValidDate> {
    MakeDate(year, d.month, d.day)
  }

  /** `d.replace(day=day, month=month)`. */
  function ReplaceMonthDay(d: ValidDate, month: int, day: int): Option<ValidDate> {
    MakeDate(d.year, month, day)
  }

  /** Changing the year of a date fails only for 29 February in a common year or a year out of range. */
  lemma ReplaceYearOutcome(d: ValidDate, year: int)
    ensures ReplaceYear(d, year).Some? <==>
              MinYear <= year <= MaxYear && (!IsLeapDay(d) || IsLeapYear(year))
  {
  }

  /** Days in the years before year `y`. */
  function DaysBeforeYear(y: int): int
    requires y >= 1
  {
    var p := y - 1;
    p * 365 + p / 4 - p / 100 + p / 400
  }

  /** Days in the months of year `y` before month `m`. */
  function DaysBeforeMonth(y: int, m: int): int
    requires 1 <= m <= 12
  {
    var common :=
      if m == 1 then 0 else if m == 2 then 31 else if m == 3 then 59
      else if m == 4 then 90 else if m == 5 then 120 else if m == 6 then 151
      else if m == 7 then 181 else if m == 8 then 212 else if m == 9 then 243
      else if m == 10 then 273 else if m == 11 then 304 else 334;
    common + (if m > 2 && IsLeapYear(y) then 1 else 0)
  }

  /** `d.toordinal()`: 0001-01-01 is day 1. */
  function Ordinal(d: ValidDate): int {
    DaysBeforeYear(d.year) + DaysBeforeMonth(d.year, d.month) + d.day
  }

  /** `(b - a).days` for two dates at midnight. */
  function DaysBetween(a: ValidDate, b: ValidDate): int {
    Ordinal(b) - Ordinal(a)
  }

  /** Stepping from year `y - 1` to `y` passes a multiple of 4, 100 or 400 exactly when `y` is one. */
  lemma QuarterStep(y: int)
    ensures y / 4 - (y - 1) / 4 == if y % 4 == 0 then 1 else 0
  {
  }

  lemma CenturyStep(y: int)
    ensures y / 100 - (y - 1) / 100 == if y % 100 == 0 then 1 else 0
  {
  }

  lemma QuadricentennialStep(y: int)
    ensures y / 400 - (y - 1) / 400 == if y % 400 == 0 then 1 else 0
  {
  }

  /** A multiple of 400 is a multiple of 100. */
  lemma CenturyOfQuadricentennial(y: int)
    requires y % 400 == 0
    ensures y % 100 == 0
  {
    var k := y / 400;
    assert y == 100 * (4 * k);
  }

  /** A multiple of 100 is a multiple of 4. */
  lemma QuarterOfCentury(y: int)
    requires y % 100 == 0
    ensures y % 4 == 0
  {
    var k := y / 100;
    assert y == 4 * (25 * k);
  }

  lemma DaysBeforeYearStep(y: int)
    requires y >= 1
    ensures DaysBeforeYear(y + 1) == DaysBeforeYear(y) + DaysInYear(y)
  {
    QuarterStep(y);
    CenturyStep(y);
    QuadricentennialStep(y);
    if y % 400 == 0 {
      CenturyOfQuadricentennial(y);
    }
    if y % 100 == 0 {
      QuarterOfCentury(y);
    }
  }

  lemma {:induction false} DaysBeforeYearGrows(y1: int, y2: int)
    requires 1 <= y1 <= y2
    ensures DaysBeforeYear(y2) - DaysBeforeYear(y1) >= 365 * (y2 - y1)
    decreases y2 - y1
  {
    if y1 < y2 {
      DaysBeforeYearStep(y1);
      DaysBeforeYearGrows(y1 + 1, y2);
    }
  }

  lemma DaysBeforeMonthSpan(y: int, m1: int, m2: int)
    requires 1 <= m1 < m2 <= 12
    ensures DaysBeforeMonth(y, m1) + DaysInMonth(y, m1) <= DaysBeforeMonth(y, m2)
  {
  }

  lemma DaysBeforeMonthInYear(y: int, m: int)
    requires 1 <= m <= 12
    ensures DaysBeforeMonth(y, m) + DaysInMonth(y, m) <= DaysInYear(y)
  {
  }

  lemma OrdinalBefore(a: ValidDate, b: ValidDate)
    requires Before(a, b)
    ensures Ordinal(a) < Ordinal(b)
  {
    if a.year < b.year {
      DaysBeforeMonthInYear(a.year, a.month);
      DaysBeforeYearStep(a.year);
      DaysBeforeYearGrows(a.year + 1, b.year);
    } else if a.month < b.month {
      DaysBeforeMonthSpan(a.year, a.month, b.month);
    }
  }

  /** Comparing two dates is comparing their ordinals. */
  lemma OrdinalOrder(a: ValidDate, b: ValidDate)
    ensures Before(a, b) <==> Ordinal(a) < Ordinal(b)
    ensures a == b <==> Ordinal(a) == Ordinal(b)
  {
    if Before(a, b) {
      OrdinalBefore(a, b);
    } else if a != b {
      assert Before(b, a);
      OrdinalBefore(b, a);
    }
  }

  /** From the 1st of a month to day `day` of that month in the same year. */
  lemma DaysWithinMonth(a: ValidDate, b: ValidDate)
    requires a.year == b.year && a.month == b.month && a.day == 1
    ensures DaysBetween(a, b) == b.day - 1
  {
  }

  /**
   * From the 1st of month `b.month` one year earlier to `b`: a whole year,
   * which has 366 days when it takes in a 29 February (that of `a`'s year for
   * January and February, that of `b`'s year otherwise), then the days of
   * `b`'s month before `b`.
   */
  lemma DaysFromYearEarlier(a: ValidDate, b: ValidDate)
    requires a.year == b.year - 1 && a.month == b.month && a.day == 1
    ensures DaysBetween(a, b) ==
              (if b.month <= 2 then DaysInYear(a.year) else DaysInYear(b.year)) + b.day - 1
    ensures 365 + b.day - 1 <= DaysBetween(a, b) <= 366 + b.day - 1
  {
    DaysBeforeYearStep(a.year);
  }
}
