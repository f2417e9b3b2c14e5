/**
 * `calculate_interest` of the finance calculator: split the interval from
 * `start` to `end` into whole years, compounded once a year at twelve times
 * the monthly rate, and a remainder of months and days charged simple
 * interest on the compounded principal.
 */
module Interest {
  import opened Calendar
  import opened Rounding

  /** What the calculation can raise, with the source line that raises it. */
  datatype Error =
    | ValueError(line: nat)      // `datetime.replace` given a triple that is not a date
    | NameError(line: nat)       // a name the module never bound
    | StartNotBeforeEnd          // the caller's guard: "Start Date must be before End Date."

  datatype Result<+T> = Ok(value: T) | Err(error: Error)

  /**
   * The names the module imports from `datetime`. The module as written
   * imports only `datetime` (DatetimeOnly); the whole-year loop also needs
   * `timedelta` (DatetimeAndTimedelta).
   */
  datatype Imports = DatetimeOnly | DatetimeAndTimedelta

  /** The six values the calculation returns, in its order. */
  datatype Breakdown = Breakdown(
    yearsDiff: int,
    totalInterest: real,
    remainingMonths: int,
    remainingDays: int,
    remainingMonthsInterest: real,
    remainingDaysInterest: real)

  /** The number of whole years and the anniversary of `start` that ends them. */
  datatype Anniversary = Anniversary(yearsDiff: int, date: ValidDate)

  datatype Remainder = Remainder(months: int, days: int)

  // ---------------------------------------------------------------------------
  // Reference definitions

  /**
   * Whole years from `start` to `end`: one less than the difference of the
   * years when `start`'s month and day come later in the year than `end`'s.
   */
  function YearsElapsed(start: Date, end: Date): int {
    end.year - start.year - (if LaterInYear(start, end) then 1 else 0)
  }

  /** Interest for one year at a monthly rate of `rate` percent. */
  function YearInterest(principal: real, rate: real): real {
    principal * (rate / 100.0) * 12.0
  }

  /** Interest for one month at a monthly rate of `rate` percent. */
  function MonthlyInterest(principal: real, rate: real): real {
    principal * (rate / 100.0)
  }

  /** The principal after `years` yearly compoundings. */
  function Compounded(amount: real, rate: real, years: nat): real {
    if years == 0 then amount
    else
      var principal := Compounded(amount, rate, years - 1);
      principal + YearInterest(principal, rate)
  }

  /** The sum of the interests of the first `years` years. */
  function YearlyInterestSum(amount: real, rate: real, years: nat): real {
    if years == 0 then 0.0
    else YearlyInterestSum(amount, rate, years - 1) + YearInterest(Compounded(amount, rate, years - 1), rate)
  }

  function Power(x: real, n: nat): real {
    if n == 0 then 1.0 else x * Power(x, n - 1)
  }

  /** The yearly growth factor of the principal. */
  function Growth(rate: real): real {
    1.0 + 12.0 * rate / 100.0
  }

  // ---------------------------------------------------------------------------
  // The steps of the calculation

  /**
   * Lines 14-20: the year difference and `start` moved by that many years,
   * one year fewer when that date is past `end`.
   */
  function WholeYears(start: ValidDate, end: ValidDate): Result<Anniversary> {
    var yearsDiff := end.year - start.year;
    match ReplaceYear(start, start.year + yearsDiff)
    case None => Err(ValueError(15))
    case Some(candidate) =>
      if !Before(end, candidate) then Ok(Anniversary(yearsDiff, candidate))
      else
        match ReplaceYear(start, start.year + yearsDiff - 1)
        case None => Err(ValueError(20))
        case Some(earlier) => Ok(Anniversary(yearsDiff - 1, earlier))
  }

  /**
   * Lines 23-25 from iteration `year` on: the two dates each iteration builds
   * (and never uses), and the `timedelta` it needs for the second, give the
   * first error the loop raises, if any.
   */
  function YearLoop(start: ValidDate, year: int, yearsDiff: int, imports: Imports): (r: Option<Error>)
    ensures r.Some? ==> r.value in {ValueError(24), ValueError(25), NameError(25)}
    decreases yearsDiff - year
  {
    if year >= yearsDiff then None
    else
      match ReplaceYear(start, start.year + year)
      case None => Some(ValueError(24))
      case Some(yearStart) =>
        match ReplaceYear(yearStart, yearStart.year + 1)
        case None => Some(ValueError(25))
        case Some(_) =>
          if imports == DatetimeOnly then Some(NameError(25))
          else YearLoop(start, year + 1, yearsDiff, imports)
  }

  /** Line 33: calendar months from the anniversary to `end`. */
  function RawMonths(anniversary: Date, end: Date): int {
    (end.year - anniversary.year) * 12 + end.month - anniversary.month
  }

  /**
   * Line 34: the 1st of `end`'s month, in the anniversary's year. The
   * `replace` there never raises, since every month has a 1st.
   */
  function StartOfLastMonth(anniversary: ValidDate, end: ValidDate): (first: ValidDate)
    ensures ReplaceMonthDay(anniversary, end.month, 1) == Some(first)
    ensures first.year == anniversary.year && first.month == end.month && first.day == 1
  {
    Date(anniversary.year, end.month, 1)
  }

  /** Line 35: days from that 1st of the month to `end`. */
  function RawDays(anniversary: ValidDate, end: ValidDate): int {
    DaysBetween(StartOfLastMonth(anniversary, end), end)
  }

  /** Lines 37-39: thirty days make one more month, once. */
  function RollOver(months: int, days: int): Remainder {
    if days >= 30 then Remainder(months + 1, days - 30) else Remainder(months, days)
  }

  /** Lines 33-39: the months and days from the anniversary to `end`. */
  function Leftover(anniversary: ValidDate, end: ValidDate): Remainder {
    RollOver(RawMonths(anniversary, end), RawDays(anniversary, end))
  }

  /** Line 23: `range(years_diff)` runs no iteration when `years_diff` is not positive. */
  function Iterations(yearsDiff: int): nat {
    if yearsDiff > 0 then yearsDiff else 0
  }

  /** Line 42: simple interest for whole months. */
  function MonthsInterest(principal: real, rate: real, months: int): real {
    MonthlyInterest(principal, rate) * months as real
  }

  /** Lines 46-47: a whole month's interest prorated over thirty days, rounded to cents. */
  function DaysInterest(principal: real, rate: real, days: int): real {
    Round2(MonthlyInterest(principal, rate) * (days as real / 30.0))
  }

  /** Lines 23-48 once the dates have been checked: the interest for the years and the rest. */
  function Settle(amount: real, rate: real, yearsDiff: int, rest: Remainder): Breakdown {
    var principal := Compounded(amount, rate, Iterations(yearsDiff));
    var monthsInterest := MonthsInterest(principal, rate, rest.months);
    var daysInterest := DaysInterest(principal, rate, rest.days);
    Breakdown(yearsDiff, YearlyInterestSum(amount, rate, Iterations(yearsDiff)) + monthsInterest + daysInterest,
              rest.months, rest.days, monthsInterest, daysInterest)
  }

  /** What `calculate_interest` returns or raises on two parsed dates. */
  function InterestOutcome(start: ValidDate, end: ValidDate, amount: real, rate: real, imports: Imports)
    : Result<Breakdown>
  {
    match WholeYears(start, end)
    case Err(e) => Err(e)
    case Ok(a) =>
      match YearLoop(start, 0, a.yearsDiff, imports)
      case Some(e) => Err(e)
      case None => Ok(Settle(amount, rate, a.yearsDiff, Leftover(a.date, end)))
  }

  // ---------------------------------------------------------------------------
  // The calculation

  /** `calculate_interest(start_date, end_date, amount, interest_rate)` on parsed dates. */
  method CalculateInterest(start: ValidDate, end: ValidDate, amount: real, rate: real, imports: Imports)
    returns (r: Result<Breakdown>)
    ensures r == InterestOutcome(start, end, amount, rate, imports)
  {
    var yearsDiff := end.year - start.year;
    var replaced := ReplaceYear(start, start.year + yearsDiff);
    if replaced.None? {
      return Err(ValueError(15));
    }
    var remainingEndDate := replaced.value;
    if Before(end, remainingEndDate) {
      yearsDiff := yearsDiff - 1;
      replaced := ReplaceYear(start, start.year + yearsDiff);
      if replaced.None? {
        return Err(ValueError(20));
      }
      remainingEndDate := replaced.value;
    }
    ghost var anniversary := Anniversary(yearsDiff, remainingEndDate);
    assert WholeYears(start, end) == Ok(anniversary);

    var failure, principal, totalInterest := CompoundWholeYears(start, yearsDiff, amount, rate, imports);
    if failure.Some? {
      return Err(failure.value);
    }
    var breakdown := ChargeRemainder(remainingEndDate, end, yearsDiff, principal, totalInterest, rate, amount);
    r := Ok(breakdown);
  }

  /**
   * Lines 32-50: the months and days from the anniversary to `end`, the
   * simple interest on the compounded principal for each, and the six
   * results. `amount` is the original principal, needed only to state what
   * `principal` and `yearlyTotal` are.
   */
  method ChargeRemainder(anniversary: ValidDate, end: ValidDate, yearsDiff: int,
                         principal: real, yearlyTotal: real, rate: real, ghost amount: real)
    returns (b: Breakdown)
    requires principal == Compounded(amount, rate, Iterations(yearsDiff))
    requires yearlyTotal == YearlyInterestSum(amount, rate, Iterations(yearsDiff))
    ensures b == Settle(amount, rate, yearsDiff, Leftover(anniversary, end))
  {
    var totalInterest := yearlyTotal;
    var remainingMonths := RawMonths(anniversary, end);
    var remainingDays := RawDays(anniversary, end);
    if remainingDays >= 30 {
      remainingMonths := remainingMonths + 1;
      remainingDays := remainingDays - 30;
    }
    assert Leftover(anniversary, end) == Remainder(remainingMonths, remainingDays);

    var remainingMonthsInterest := MonthsInterest(principal, rate, remainingMonths);
    totalInterest := totalInterest + remainingMonthsInterest;

    var remainingDaysInterest := DaysInterest(principal, rate, remainingDays);
    totalInterest := totalInterest + remainingDaysInterest;

    b := Breakdown(yearsDiff, totalInterest, remainingMonths, remainingDays,
                   remainingMonthsInterest, remainingDaysInterest);
  }

  /**
   * Lines 10-11 and 23-30: starting from `amount` and no interest, add a
   * year's interest to the total and to the principal `yearsDiff` times,
   * unless building the two dates of an iteration fails first.
   */
  method CompoundWholeYears(start: ValidDate, yearsDiff: int, amount: real, rate: real, imports: Imports)
    returns (failure: Option<Error>, principal: real, totalInterest: real)
    ensures failure == YearLoop(start, 0, yearsDiff, imports)
    ensures failure.None? ==> principal == Compounded(amount, rate, Iterations(yearsDiff))
    ensures failure.None? ==> totalInterest == YearlyInterestSum(amount, rate, Iterations(yearsDiff))
  {
    principal, totalInterest := amount, 0.0;
    failure := None;
    var year := 0;
    while year < yearsDiff
      invariant 0 <= year <= Iterations(yearsDiff)
      invariant YearLoop(start, 0, yearsDiff, imports) == YearLoop(start, year, yearsDiff, imports)
      invariant principal == Compounded(amount, rate, year)
      invariant totalInterest == YearlyInterestSum(amount, rate, year)
      invariant principal == amount + totalInterest
    {
      var yearStartDate := ReplaceYear(start, start.year + year);
      if yearStartDate.None? {
        return Some(ValueError(24)), principal, totalInterest;
      }
      var yearEndDate := ReplaceYear(yearStartDate.value, yearStartDate.value.year + 1);
      if yearEndDate.None? {
        return Some(ValueError(25)), principal, totalInterest;
      }
      if imports == DatetimeOnly {
        return Some(NameError(25)), principal, totalInterest;
      }
      assert YearLoop(start, year, yearsDiff, imports) == YearLoop(start, year + 1, yearsDiff, imports);
      var yearlyInterest := YearInterest(principal, rate);
      totalInterest := totalInterest + yearlyInterest;
      principal := principal + yearlyInterest;
      year := year + 1;
    }
    assert YearLoop(start, 0, yearsDiff, imports) == None;
    assert year == Iterations(yearsDiff);
  }

  /**
   * The "Calculate Interest" button: dates that are not in order are refused
   * before the calculation runs.
   */
  method CalculateButton(start: ValidDate, end: ValidDate, amount: real, rate: real, imports: Imports)
    returns (r: Result<Breakdown>)
    ensures (r == Err(StartNotBeforeEnd)) <==> !Before(start, end)
    ensures Before(start, end) ==> r == InterestOutcome(start, end, amount, rate, imports)
  {
    if Before(start, end) {
      r := CalculateInterest(start, end, amount, rate, imports);
    } else {
      r := Err(StartNotBeforeEnd);
    }
  }
}
