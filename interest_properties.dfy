/**
 * What `calculate_interest` promises about its six results: how many whole
 * years it counts, when it raises instead of returning, what the leftover
 * months and days are, and how the interests add up.
 */
module InterestProperties {
  import opened Calendar
  import opened Rounding
  import opened Interest

  // ---------------------------------------------------------------------------
  // Whole years (lines 14-20)

  /** `start` moved by `n` years is on or before `end` exactly when `n` is at most the whole years between them. */
  lemma YearsElapsedIsLargest(start: Date, end: Date, n: int)
    ensures !Before(end, Date(start.year + n, start.month, start.day)) <==> n <= YearsElapsed(start, end)
  {
  }

  /**
   * When lines 14-20 succeed, `years_diff` is the number of whole years from
   * `start` to `end`, and `remaining_end_date` is `start` moved by that many
   * years: on or before `end`, in `end`'s year or the year before.
   */
  lemma WholeYearsAnniversary(start: ValidDate, end: ValidDate)
    ensures WholeYears(start, end).Ok? ==>
              var a := WholeYears(start, end).value;
              && a.yearsDiff == YearsElapsed(start, end)
              && a.date == Date(start.year + a.yearsDiff, start.month, start.day)
              && !Before(end, a.date)
              && a.date.year == end.year - (if LaterInYear(start, end) then 1 else 0)
    ensures Before(start, end) ==> YearsElapsed(start, end) >= 0
  {
    var yearsDiff := end.year - start.year;
    var c := Date(end.year, start.month, start.day);
    assert Before(end, c) <==> LaterInYear(start, end);
  }

  /** Lines 15 and 20 raise only for 29 February or for a year before year 1. */
  lemma WholeYearsErrors(start: ValidDate, end: ValidDate)
    ensures WholeYears(start, end) == Err(ValueError(15)) <==>
              IsLeapDay(start) && !IsLeapYear(end.year)
    ensures WholeYears(start, end) == Err(ValueError(20)) <==>
              || (IsLeapDay(start) && IsLeapYear(end.year) && LaterInYear(start, end))
              || (!IsLeapDay(start) && LaterInYear(start, end) && end.year == MinYear)
    ensures WholeYears(start, end).Err? ==>
              WholeYears(start, end).error == ValueError(15) || WholeYears(start, end).error == ValueError(20)
  {
    NoConsecutiveLeapYears(end.year);
    var c := Date(end.year, start.month, start.day);
    assert IsValid(c) ==> (Before(end, c) <==> LaterInYear(start, end));
  }

  // ---------------------------------------------------------------------------
  // The whole-year loop (lines 23-30)

  /** Without 29 February and with `timedelta` bound, every iteration's two dates exist. */
  lemma {:induction false} YearLoopCompletes(start: ValidDate, year: int, yearsDiff: int)
    requires !IsLeapDay(start) && 0 <= year && start.year + yearsDiff <= MaxYear
    ensures YearLoop(start, year, yearsDiff, DatetimeAndTimedelta) == None
    decreases yearsDiff - year
  {
    if year < yearsDiff {
      YearLoopCompletes(start, year + 1, yearsDiff);
    }
  }

  /**
   * What the loop raises, decided by its first iteration: a 29 February start
   * fails at line 25 because the next year is common, and otherwise the
   * missing `timedelta` name fails there.
   */
  lemma YearLoopOutcome(start: ValidDate, yearsDiff: int, imports: Imports)
    requires start.year + yearsDiff <= MaxYear
    ensures YearLoop(start, 0, yearsDiff, imports) ==
              if yearsDiff <= 0 then None
              else if IsLeapDay(start) then Some(ValueError(25))
              else if imports == DatetimeOnly then Some(NameError(25))
              else None
  {
    NoConsecutiveLeapYears(start.year);
    if yearsDiff > 0 && !IsLeapDay(start) && imports == DatetimeAndTimedelta {
      YearLoopCompletes(start, 0, yearsDiff);
    }
  }

  /** Each iteration multiplies the principal by the growth factor `1 + 12 * rate / 100`. */
  lemma {:induction false} CompoundedClosedForm(amount: real, rate: real, years: nat)
    ensures Compounded(amount, rate, years) == amount * Power(Growth(rate), years)
  {
    if years > 0 {
      CompoundedClosedForm(amount, rate, years - 1);
      var p := Compounded(amount, rate, years - 1);
      assert p + YearInterest(p, rate) == p * Growth(rate);
      assert amount * Power(Growth(rate), years - 1) * Growth(rate) == amount * Power(Growth(rate), years);
    }
  }

  /** The interest of the years is what the principal has grown by. */
  lemma {:induction false} YearlyInterestTelescopes(amount: real, rate: real, years: nat)
    ensures amount + YearlyInterestSum(amount, rate, years) == Compounded(amount, rate, years)
  {
    if years > 0 {
      YearlyInterestTelescopes(amount, rate, years - 1);
    }
  }

  /** A non-negative amount at a non-negative rate never shrinks. */
  lemma {:induction false} CompoundedAtLeastAmount(amount: real, rate: real, years: nat)
    requires amount >= 0.0 && rate >= 0.0
    ensures Compounded(amount, rate, years) >= amount
  {
    if years > 0 {
      CompoundedAtLeastAmount(amount, rate, years - 1);
      var p := Compounded(amount, rate, years - 1);
      assert p * (rate / 100.0) >= 0.0;
      assert YearInterest(p, rate) >= 0.0;
    }
  }

  /** At a zero rate no year earns anything. */
  lemma {:induction false} NoYearlyInterestAtZeroRate(amount: real, years: nat)
    ensures YearlyInterestSum(amount, 0.0, years) == 0.0
    ensures Compounded(amount, 0.0, years) == amount
  {
    if years > 0 {
      NoYearlyInterestAtZeroRate(amount, years - 1);
      assert YearInterest(amount, 0.0) == 0.0;
    }
  }

  // ---------------------------------------------------------------------------
  // Months and days left over (lines 33-39)

  /**
   * Lines 37-39: a single rollover, which keeps the length in 30-day months
   * and days, adds a month exactly when there were 30 days or more, and
   * brings fewer than 60 days below 30.
   */
  lemma RollOverOnce(months: int, days: int)
    ensures RollOver(months, days).months * 30 + RollOver(months, days).days == months * 30 + days
    ensures RollOver(months, days).months == months + 1 <==> days >= 30
    ensures RollOver(months, days).months == months <==> days < 30
    ensures 0 <= days < 60 ==> 0 <= RollOver(months, days).days < 30
    ensures days >= 60 ==> RollOver(months, days).days >= 30
  {
  }

  /**
   * When `remaining_end_date` is in `end`'s year, the days are counted from
   * the 1st of `end`'s month, so they are `end.day - 1` and only a 31st rolls
   * over.
   */
  lemma LeftoverSameYear(anniversary: ValidDate, end: ValidDate)
    requires anniversary.year == end.year && anniversary.month <= end.month
    ensures Leftover(anniversary, end).months ==
              end.month - anniversary.month + (if end.day == 31 then 1 else 0)
    ensures Leftover(anniversary, end).days == (if end.day == 31 then 0 else end.day - 1)
    ensures 0 <= Leftover(anniversary, end).days < 30
  {
    DaysWithinMonth(StartOfLastMonth(anniversary, end), end);
  }

  /**
   * When `remaining_end_date` is in the year before `end`'s, the 1st of
   * `end`'s month is built in that earlier year: the raw count spans a whole
   * year besides, and the single 30-day rollover leaves 335 days or more.
   */
  lemma LeftoverYearEarlier(anniversary: ValidDate, end: ValidDate)
    requires anniversary.year == end.year - 1 && anniversary.month >= end.month
    ensures Leftover(anniversary, end).months == 13 + end.month - anniversary.month
    ensures Leftover(anniversary, end).days ==
              (if end.month <= 2 then DaysInYear(anniversary.year) else DaysInYear(end.year)) - 30 + end.day - 1
    ensures 335 + end.day - 1 <= Leftover(anniversary, end).days <= 336 + end.day - 1
  {
    DaysFromYearEarlier(StartOfLastMonth(anniversary, end), end);
  }

  // ---------------------------------------------------------------------------
  // The whole calculation behind the caller's guard (line 111)

  /**
   * Line 24 never raises, guard or no guard: lines 14-20 keep
   * `start.year + years_diff` within `end.year`, and a 29 February start
   * already fails at line 25 in the first iteration.
   */
  lemma YearStartAlwaysExists(start: ValidDate, end: ValidDate, amount: real, rate: real, imports: Imports)
    ensures InterestOutcome(start, end, amount, rate, imports) != Err(ValueError(24))
  {
    WholeYearsAnniversary(start, end);
    match WholeYears(start, end)
    case Err(_) =>
    case Ok(a) =>
      YearLoopOutcome(start, a.yearsDiff, imports);
  }

  /**
   * With `start < end`, the calculation raises exactly in these cases: a
   * 29 February start whose anniversary does not exist (lines 15, 20) or
   * whose first year ends in a common year (line 25), and any other start
   * with a whole year to compound, for want of `timedelta` (line 25).
   */
  lemma GuardedErrors(start: ValidDate, end: ValidDate, amount: real, rate: real, imports: Imports)
    requires Before(start, end)
    ensures InterestOutcome(start, end, amount, rate, imports) == Err(ValueError(15)) <==>
              IsLeapDay(start) && !IsLeapYear(end.year)
    ensures InterestOutcome(start, end, amount, rate, imports) == Err(ValueError(20)) <==>
              IsLeapDay(start) && IsLeapYear(end.year) && LaterInYear(start, end)
    ensures InterestOutcome(start, end, amount, rate, imports) == Err(ValueError(25)) <==>
              IsLeapDay(start) && IsLeapYear(end.year) && !LaterInYear(start, end) && YearsElapsed(start, end) > 0
    ensures InterestOutcome(start, end, amount, rate, imports) == Err(NameError(25)) <==>
              !IsLeapDay(start) && YearsElapsed(start, end) > 0 && imports == DatetimeOnly
    ensures InterestOutcome(start, end, amount, rate, imports).Err? ==>
              InterestOutcome(start, end, amount, rate, imports).error in
                {ValueError(15), ValueError(20), ValueError(25), NameError(25)}
  {
    WholeYearsAnniversary(start, end);
    WholeYearsErrors(start, end);
    match WholeYears(start, end)
    case Err(_) =>
    case Ok(a) =>
      YearLoopOutcome(start, a.yearsDiff, imports);
  }

  /** With `timedelta` bound, the calculation succeeds unless it starts on a 29 February in an earlier year than it ends. */
  lemma CorrectedSucceeds(start: ValidDate, end: ValidDate, amount: real, rate: real)
    requires Before(start, end)
    ensures InterestOutcome(start, end, amount, rate, DatetimeAndTimedelta).Ok? <==>
              !IsLeapDay(start) || start.year == end.year
  {
    GuardedErrors(start, end, amount, rate, DatetimeAndTimedelta);
    NoConsecutiveLeapYears(start.year);
  }

  /**
   * As the module is written, with only `datetime` imported, the
   * calculation returns only when there is no whole year to compound.
   */
  lemma AsWrittenSucceeds(start: ValidDate, end: ValidDate, amount: real, rate: real)
    requires Before(start, end)
    ensures InterestOutcome(start, end, amount, rate, DatetimeOnly).Ok? <==>
              YearsElapsed(start, end) == 0 && (!IsLeapDay(start) || start.year == end.year)
  {
    GuardedErrors(start, end, amount, rate, DatetimeOnly);
    NoConsecutiveLeapYears(start.year);
  }

  /**
   * The counts returned: `years_diff` is the whole years, and the months and
   * days are counted from the anniversary, in one of two regimes depending on
   * whether that anniversary fell in `end`'s year.
   */
  lemma GuardedCounts(start: ValidDate, end: ValidDate, amount: real, rate: real, imports: Imports)
    requires Before(start, end)
    requires InterestOutcome(start, end, amount, rate, imports).Ok?
    ensures var b := InterestOutcome(start, end, amount, rate, imports).value;
            && b.yearsDiff == YearsElapsed(start, end) >= 0
            && 0 <= b.remainingMonths <= 13
            && 0 <= b.remainingDays
            && (!LaterInYear(start, end) ==>
                  && b.remainingMonths == end.month - start.month + (if end.day == 31 then 1 else 0)
                  && b.remainingDays == (if end.day == 31 then 0 else end.day - 1))
            && (LaterInYear(start, end) ==>
                  && b.remainingMonths == 13 + end.month - start.month
                  && b.remainingDays ==
                       (if end.month <= 2 then DaysInYear(end.year - 1) else DaysInYear(end.year)) - 30 + end.day - 1
                  && 335 + end.day - 1 <= b.remainingDays <= 336 + end.day - 1)
  {
    OutcomeSettles(start, end, amount, rate, imports);
    WholeYearsAnniversary(start, end);
    var a := WholeYears(start, end).value;
    var rest := Leftover(a.date, end);
    SettleFields(amount, rate, a.yearsDiff, rest, InterestOutcome(start, end, amount, rate, imports).value);
    if LaterInYear(start, end) {
      LeftoverYearEarlier(a.date, end);
    } else {
      LeftoverSameYear(a.date, end);
    }
  }

  /** A proof step, not a property: the fields of `Settle`'s breakdown, one at a time. */
  lemma SettleFields(amount: real, rate: real, yearsDiff: int, rest: Remainder, b: Breakdown)
    requires b == Settle(amount, rate, yearsDiff, rest)
    ensures b.yearsDiff == yearsDiff && b.remainingMonths == rest.months && b.remainingDays == rest.days
    ensures var principal := Compounded(amount, rate, Iterations(yearsDiff));
            && b.remainingMonthsInterest == MonthsInterest(principal, rate, rest.months)
            && b.remainingDaysInterest == DaysInterest(principal, rate, rest.days)
    ensures b.totalInterest ==
              YearlyInterestSum(amount, rate, Iterations(yearsDiff)) + b.remainingMonthsInterest + b.remainingDaysInterest
  {
  }

  /**
   * Lines 23-48 once the dates are settled: the leftover months and days are
   * charged simple interest on the compounded principal, and the total is
   * what the principal grew by plus those two.
   */
  lemma SettleInterest(amount: real, rate: real, yearsDiff: int, rest: Remainder, b: Breakdown)
    requires b == Settle(amount, rate, yearsDiff, rest)
    ensures var principal := Compounded(amount, rate, Iterations(b.yearsDiff));
            && b.remainingMonthsInterest == MonthlyInterest(principal, rate) * b.remainingMonths as real
            && b.remainingDaysInterest == DaysInterest(principal, rate, b.remainingDays)
            && b.totalInterest == (principal - amount) + b.remainingMonthsInterest + b.remainingDaysInterest
  {
    SettleFields(amount, rate, yearsDiff, rest, b);
    YearlyInterestTelescopes(amount, rate, Iterations(yearsDiff));
  }

  /** At a zero rate nothing is charged. */
  lemma SettleAtZeroRate(amount: real, yearsDiff: int, rest: Remainder, b: Breakdown)
    requires b == Settle(amount, 0.0, yearsDiff, rest)
    ensures b.totalInterest == 0.0 && b.remainingMonthsInterest == 0.0 && b.remainingDaysInterest == 0.0
  {
    SettleFields(amount, 0.0, yearsDiff, rest, b);
    NoYearlyInterestAtZeroRate(amount, Iterations(yearsDiff));
    assert MonthlyInterest(amount, 0.0) == 0.0;
    Round2OfCents(0.0);
  }

  /** A non-negative amount at a non-negative rate for a non-negative leftover earns no negative interest. */
  lemma SettleNonNegative(amount: real, rate: real, yearsDiff: int, rest: Remainder, b: Breakdown)
    requires amount >= 0.0 && rate >= 0.0 && rest.months >= 0 && rest.days >= 0
    requires b == Settle(amount, rate, yearsDiff, rest)
    ensures b.totalInterest >= 0.0 && b.remainingMonthsInterest >= 0.0 && b.remainingDaysInterest >= 0.0
  {
    var n := Iterations(yearsDiff);
    SettleFields(amount, rate, yearsDiff, rest, b);
    CompoundedAtLeastAmount(amount, rate, n);
    YearlyInterestTelescopes(amount, rate, n);
    var perMonth := MonthlyInterest(Compounded(amount, rate, n), rate);
    assert perMonth >= 0.0;
    assert perMonth * rest.months as real >= 0.0;
    assert perMonth * (rest.days as real / 30.0) >= 0.0;
  }

  /** Lines 46-47: the days' interest is in whole cents, within half a cent of the prorated monthly interest. */
  lemma DaysInterestRounding(principal: real, rate: real, days: int)
    ensures IsCents(DaysInterest(principal, rate, days))
    ensures var prorated := MonthlyInterest(principal, rate) * (days as real / 30.0);
            prorated - 0.005 <= DaysInterest(principal, rate, days) <= prorated + 0.005
  {
  }

  /**
   * A proof step, not a property: a successful calculation is `Settle`
   * applied to the whole years and the leftover of `end`.
   */
  lemma OutcomeSettles(start: ValidDate, end: ValidDate, amount: real, rate: real, imports: Imports)
    requires InterestOutcome(start, end, amount, rate, imports).Ok?
    ensures WholeYears(start, end).Ok?
    ensures var a := WholeYears(start, end).value;
            InterestOutcome(start, end, amount, rate, imports) == Ok(Settle(amount, rate, a.yearsDiff, Leftover(a.date, end)))
  {
  }

  /**
   * The interests of a successful calculation: the leftover months and days
   * are charged simple interest on the compounded principal (whose closed
   * form `CompoundedClosedForm` gives), and the total is what the principal
   * grew by plus those two.
   */
  lemma GuardedInterest(start: ValidDate, end: ValidDate, amount: real, rate: real, imports: Imports, b: Breakdown)
    requires InterestOutcome(start, end, amount, rate, imports) == Ok(b)
    ensures var principal := Compounded(amount, rate, Iterations(b.yearsDiff));
            && b.remainingMonthsInterest == MonthlyInterest(principal, rate) * b.remainingMonths as real
            && b.remainingDaysInterest == DaysInterest(principal, rate, b.remainingDays)
            && b.totalInterest == (principal - amount) + b.remainingMonthsInterest + b.remainingDaysInterest
  {
    OutcomeSettles(start, end, amount, rate, imports);
    var a := WholeYears(start, end).value;
    SettleInterest(amount, rate, a.yearsDiff, Leftover(a.date, end), b);
  }

  /** At a zero rate the calculation charges nothing. */
  lemma ZeroRateNoInterest(start: ValidDate, end: ValidDate, amount: real, imports: Imports)
    requires InterestOutcome(start, end, amount, 0.0, imports).Ok?
    ensures var b := InterestOutcome(start, end, amount, 0.0, imports).value;
            b.totalInterest == 0.0 && b.remainingMonthsInterest == 0.0 && b.remainingDaysInterest == 0.0
  {
    OutcomeSettles(start, end, amount, 0.0, imports);
    var a := WholeYears(start, end).value;
    SettleAtZeroRate(amount, a.yearsDiff, Leftover(a.date, end), InterestOutcome(start, end, amount, 0.0, imports).value);
  }

  /** Behind the guard, a non-negative amount at a non-negative rate never earns negative interest. */
  lemma InterestNonNegative(start: ValidDate, end: ValidDate, amount: real, rate: real, imports: Imports)
    requires Before(start, end) && amount >= 0.0 && rate >= 0.0
    requires InterestOutcome(start, end, amount, rate, imports).Ok?
    ensures var b := InterestOutcome(start, end, amount, rate, imports).value;
            b.totalInterest >= 0.0 && b.remainingMonthsInterest >= 0.0 && b.remainingDaysInterest >= 0.0
  {
    GuardedCounts(start, end, amount, rate, imports);
    OutcomeSettles(start, end, amount, rate, imports);
    var a := WholeYears(start, end).value;
    SettleNonNegative(amount, rate, a.yearsDiff, Leftover(a.date, end), InterestOutcome(start, end, amount, rate, imports).value);
  }
}
