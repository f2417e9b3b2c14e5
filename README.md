# Finance calculator: interest over a date interval

`calculate_interest(start_date, end_date, amount, interest_rate)` in
`finance_calculator_app.py` charges interest on a principal between two dates
at a monthly rate given in percent. It works in three steps:

1. It counts the whole years from the start date to the end date. For each
   whole year it adds twelve months' interest to the principal, so the
   interest compounds once a year. As written, the first whole year raises
   NameError at line 25 instead (see "## Findings").
2. It counts the calendar months left after the last anniversary of the start
   date. It then counts the days to the end date from the 1st of the end
   date's month in the year of the last anniversary, which can be the year
   before the end date's. Thirty or more days roll over into one more month,
   once.
3. It charges simple interest on the compounded principal for those months and
   for those days, prorated over 30 days and rounded to cents. It returns six
   values: years, total interest, months, days, months' interest and days'
   interest.

The "Calculate Interest" button first refuses an interval whose start date is
not before its end date.

The project has five files:

- `calendar.dfy` (module `Calendar`) models dates as Python's `datetime`
  handles them:
  - proleptic Gregorian (year, month, day) triples, with years from 1 to 9999;
  - comparison in that order;
  - subtraction through the day ordinal;
  - `replace`, which fails on a triple that is not a date.
- `rounding.dfy` (module `Rounding`) models `round(x, 2)` as round-half-even
  on the exact value of `x`.
- `interest.dfy` (module `Interest`) holds the calculation:
  - the method `CalculateInterest`;
  - the helper methods `CompoundWholeYears` (the year loop) and
    `ChargeRemainder` (lines 32-50);
  - the button's guard, `CalculateButton`;
  - the reference function `InterestOutcome`, which each method is proved
    against.
- `interest_properties.dfy` (module `InterestProperties`) proves what the
  calculation promises.
- `interest_examples.dfy` (module `InterestExamples`) computes the outcome on
  particular dates.

Each error the calculation raises is an `Error` value carrying its source
line: `ValueError(15)`, `ValueError(20)`, `ValueError(25)` and
`NameError(25)`. Line 24 never raises: lines 14-20 keep
`start.year + years_diff` within the end date's year, and a 29 February start
already fails at line 25 in the first iteration
(`InterestProperties.YearStartAlwaysExists`). The model keeps a
`ValueError(24)` branch for the `replace` at line 24, but no input reaches it.

Line 2 imports only `datetime`, but line 25 needs `timedelta`. The members
that reach line 25 therefore take an `Imports` parameter: `YearLoop`,
`CompoundWholeYears`, `InterestOutcome`, `CalculateInterest` and
`CalculateButton`. `DatetimeOnly` is the module as written, and
`DatetimeAndTimedelta` is the module with the import it needs (see Findings).

Four things the code does that its comments do not say:

- Only the days' interest is rounded (line 47); the total is not.
- The days are counted from the 1st of the end date's month (line 34), not
  from a date anchored on the start date's day of the month.
- When the last anniversary falls in the year before the end date, line 34
  builds that 1st of the month in the anniversary's year. The day count then
  spans a further whole year, and after the single rollover it is 335 or more
  (`LeftoverYearEarlier`, `StartLateInYear`, `YearEndToNewYear`).
- With `timedelta` imported, the total does not grow with the end date. An
  interval that ends the day before an anniversary counts its days from the
  1st of that month a year earlier. It is charged more than the interval that
  ends on the anniversary (`InterestExamples.LongerIntervalChargedLess`). As
  written, the interval that ends on the anniversary raises NameError at
  line 25 instead.

## Model

| member | source | states |
|---|---|---|
| `Calendar.Before` | finance_calculator_app.py:18 | `<` on dates, lexicographic on (year, month, day); `OrdinalOrder` ties it to the ordinal; the guard at line 111 is its negation |
| `Calendar.Ordinal` | finance_calculator_app.py:35 | the day number of a date, 0001-01-01 being day 1; `OrdinalOrder` proves it orders dates as `Before` does |
| `Calendar.DaysBetween` | finance_calculator_app.py:35 | `(b - a).days`, the difference of the ordinals; `DaysWithinMonth` and `DaysFromYearEarlier` give its value on the two spans line 35 measures |
| `Calendar.ReplaceYear` | finance_calculator_app.py:15-25 | `replace(year=...)` at lines 15, 20, 24 and 25; `ReplaceYearOutcome` says exactly when it fails |
| `Calendar.ReplaceMonthDay` | finance_calculator_app.py:34 | `replace(day=..., month=...)` at line 34; `StartOfLastMonth` proves it never fails there |
| `Calendar.ReplaceYearOutcome` | finance_calculator_app.py:15-25 | changing a date's year fails exactly for 29 February moved to a common year, or for a year outside 1..9999 |
| `Calendar.OrdinalOrder` | finance_calculator_app.py:18 | one date is before another exactly when its ordinal is smaller, and two dates are equal exactly when their ordinals are |
| `Calendar.DaysWithinMonth` | finance_calculator_app.py:35 | from the 1st of a month to day d of the same month is d - 1 days |
| `Calendar.DaysFromYearEarlier` | finance_calculator_app.py:34-35 | from the 1st of a month to day d of that month a year later is d - 1 days plus the length of the year before the end date's, for January and February, or of the end date's year otherwise |
| `Rounding.Round2` | finance_calculator_app.py:47 | the result is a whole number of cents, within half a cent of the argument, and not negative when the argument is not |
| `Rounding.Round2Nearest` | finance_calculator_app.py:47 | no multiple of 0.01 is nearer to the argument than the result |
| `Rounding.Round2Ties` | finance_calculator_app.py:47 | halfway between two multiples of 0.01, the result is the even one, half a cent from the argument |
| `Rounding.Round2HalfEvenExamples` | finance_calculator_app.py:47 | 0.125 rounds to 0.12, 0.135 to 0.14 and -0.125 to -0.12 |
| `Rounding.Round2OfCents` | finance_calculator_app.py:47 | an amount already in whole cents is left unchanged |
| `Rounding.Round2Monotone` | finance_calculator_app.py:47 | rounding keeps the order of its arguments |
| `Interest.WholeYears` | finance_calculator_app.py:14-20 | the year difference and the start moved by it, one year fewer when that date is past the end, or ValueError at line 15 or 20; `WholeYearsAnniversary` and `WholeYearsErrors` prove what it gives |
| `Interest.Compounded` | finance_calculator_app.py:28-30 | the principal after n yearly compoundings; `CompoundedClosedForm` gives its closed form |
| `Interest.YearInterest` | finance_calculator_app.py:28 | twelve months' interest on the principal; `CompoundedClosedForm` turns it into the growth factor 1 + 12 * rate / 100 |
| `Interest.YearlyInterestSum` | finance_calculator_app.py:29 | the sum of the first n years' interests; `YearlyInterestTelescopes` proves it is what the principal grew by |
| `Interest.YearLoop` | finance_calculator_app.py:23-25 | the loop can raise only ValueError at line 24 or 25, or NameError at line 25; `YearLoopOutcome` says which, and `YearStartAlwaysExists` rules out line 24 |
| `Interest.RawMonths` | finance_calculator_app.py:33 | the calendar months from the anniversary to the end; `LeftoverSameYear` and `LeftoverYearEarlier` give its value in each case |
| `Interest.RawDays` | finance_calculator_app.py:35 | the days from the 1st of the end's month, in the anniversary's year, to the end; `DaysWithinMonth` and `DaysFromYearEarlier` count them |
| `Interest.RollOver` | finance_calculator_app.py:37-39 | one more month and 30 fewer days when there are 30 days or more; `RollOverOnce` proves what it keeps |
| `Interest.Leftover` | finance_calculator_app.py:33-39 | the months and days after the rollover; `LeftoverSameYear` and `LeftoverYearEarlier` prove their values |
| `Interest.MonthlyInterest` | finance_calculator_app.py:42-46 | a month's interest, `principal * (rate / 100)`, the factor of line 42 and `amount_per_month` of line 46; `SettleInterest` and `DaysInterestRounding` prove how it is charged |
| `Interest.Iterations` | finance_calculator_app.py:23 | how many times `range(years_diff)` runs, none for a non-positive count; `CompoundWholeYears` runs exactly that many iterations and `Settle` compounds that many years |
| `Interest.MonthsInterest` | finance_calculator_app.py:42 | a month's interest on the principal times the months; `SettleInterest` ties it to the compounded principal |
| `Interest.DaysInterest` | finance_calculator_app.py:46-47 | a month's interest prorated over 30 days and rounded to cents; `DaysInterestRounding` bounds it |
| `Interest.Settle` | finance_calculator_app.py:23-48 | the six results once the dates are checked; `SettleInterest`, `SettleAtZeroRate` and `SettleNonNegative` prove how they add up |
| `Interest.InterestOutcome` | finance_calculator_app.py:5-50 | what the calculation returns or raises; `GuardedErrors`, `GuardedCounts` and `GuardedInterest` characterise it, and `CalculateInterest` is proved equal to it |
| `Interest.StartOfLastMonth` | finance_calculator_app.py:34 | the `replace(day=1, month=end.month)` at line 34 never fails; it gives the 1st of the end date's month in the anniversary's year |
| `Interest.CalculateInterest` | finance_calculator_app.py:5-50 | returns exactly the six results, or raises exactly the error, that `InterestOutcome` gives: lines 14-20 step by step, then the loop, then the remainder |
| `Interest.CompoundWholeYears` | finance_calculator_app.py:23-30 | the loop raises what `YearLoop` raises; otherwise the principal is `Compounded`, the total is `YearlyInterestSum` of the years, and the invariant principal == amount + total holds |
| `Interest.ChargeRemainder` | finance_calculator_app.py:32-50 | from the compounded principal and yearly total, builds exactly the breakdown `Settle` gives for the leftover of the anniversary |
| `Interest.CalculateButton` | finance_calculator_app.py:109-119 | refuses exactly when the start date is not before the end date; otherwise gives the calculation's outcome |
| `InterestProperties.YearsElapsedIsLargest` | finance_calculator_app.py:14-20 | the start date moved by n years is on or before the end date exactly when n is at most the whole years between them |
| `InterestProperties.WholeYearsAnniversary` | finance_calculator_app.py:14-20 | on success, the year count is the whole years elapsed (not negative behind the guard), and the anniversary is the start moved by that many years, on or before the end, in the end's year or the year before |
| `InterestProperties.WholeYearsErrors` | finance_calculator_app.py:15-20 | line 15 raises exactly when a 29 February start meets a common end year; line 20 raises exactly for a 29 February start later in the year than the end date, or a year 0 |
| `InterestProperties.YearLoopCompletes` | finance_calculator_app.py:23-25 | with `timedelta` bound and no 29 February start, every iteration's dates exist, up to year 9999 |
| `InterestProperties.YearLoopOutcome` | finance_calculator_app.py:23-25 | the loop raises nothing when there is no whole year; otherwise ValueError at line 25 for a 29 February start, otherwise NameError at line 25 as written, otherwise nothing |
| `InterestProperties.CompoundedClosedForm` | finance_calculator_app.py:28-30 | after n years the principal is amount * (1 + 12 * rate / 100)^n |
| `InterestProperties.YearlyInterestTelescopes` | finance_calculator_app.py:28-30 | amount plus the sum of the yearly interests is the compounded principal |
| `InterestProperties.CompoundedAtLeastAmount` | finance_calculator_app.py:28-30 | at a non-negative amount and rate, the compounded principal is never below the amount |
| `InterestProperties.NoYearlyInterestAtZeroRate` | finance_calculator_app.py:28-30 | at a zero rate, the years earn nothing and the principal is unchanged |
| `InterestProperties.RollOverOnce` | finance_calculator_app.py:37-39 | the rollover keeps months * 30 + days; it adds a month exactly when there were 30 days or more; it brings a count below 60 under 30, and leaves one of 60 or more at 30 or above |
| `InterestProperties.LeftoverSameYear` | finance_calculator_app.py:33-39 | with the anniversary in the end's year, the months are the calendar months between them plus one for a 31st, and the days are end.day - 1 (0 for a 31st), always in [0, 29] |
| `InterestProperties.LeftoverYearEarlier` | finance_calculator_app.py:33-39 | with the anniversary in the year before the end's, the months are 13 + end.month - anniversary.month, and the days are the length of the year spanned minus 30 plus end.day - 1, so between 335 + end.day - 1 and 336 + end.day - 1 |
| `InterestProperties.YearStartAlwaysExists` | finance_calculator_app.py:14-24 | for any dates, guard or no guard, the calculation never raises at line 24 |
| `InterestProperties.GuardedErrors` | finance_calculator_app.py:14-25 | behind the guard, each of the four errors occurs exactly under its own condition on the dates and the imports, and no other error occurs |
| `InterestProperties.CorrectedSucceeds` | finance_calculator_app.py:23-25 | with `timedelta` imported and behind the guard, the calculation returns exactly when the start is not 29 February, or both dates are in one year |
| `InterestProperties.AsWrittenSucceeds` | finance_calculator_app.py:25 | as written and behind the guard, the calculation returns exactly when there is no whole year and the same 29 February condition holds |
| `InterestProperties.GuardedCounts` | finance_calculator_app.py:14-39 | behind the guard, the returned years are the whole years elapsed; the months are in [0, 13] and the days are not negative, with their exact values in each of the two anniversary cases |
| `InterestProperties.SettleInterest` | finance_calculator_app.py:42-48 | the months' and days' interest are charged on the compounded principal, and the total is the principal's growth plus those two |
| `InterestProperties.DaysInterestRounding` | finance_calculator_app.py:46-47 | the days' interest is in whole cents, within half a cent of the monthly interest times days / 30 |
| `InterestProperties.SettleAtZeroRate` | finance_calculator_app.py:28-48 | at a zero rate, the total, months' and days' interest are all 0 |
| `InterestProperties.SettleNonNegative` | finance_calculator_app.py:28-48 | a non-negative amount, rate and leftover give no negative interest |
| `InterestProperties.GuardedInterest` | finance_calculator_app.py:42-48 | a returned breakdown charges the compounded principal for its months and days, and its total is the principal's growth plus those two |
| `InterestProperties.ZeroRateNoInterest` | finance_calculator_app.py:28-48 | any returned breakdown at a zero rate has zero total, months' and days' interest |
| `InterestProperties.InterestNonNegative` | finance_calculator_app.py:28-48 | behind the guard, a non-negative amount and rate never give negative interest |
| `InterestExamples.DefaultInputs` | finance_calculator_app.py:103-106 | the form's defaults (01/01/2024 to 31/12/2024, 20000 at 1.75 %) give 0 years, 12 months, 0 days and 4200 interest |
| `InterestExamples.EndMidMonth` | finance_calculator_app.py:33-48 | 01/01/2024 to 15/06/2024 at 2 % on 10000 gives 5 months and 14 days, and 1000 + 93.33 interest |
| `InterestExamples.StartLateInYear` | finance_calculator_app.py:33-39 | 15/06/2023 to 10/03/2024 gives 10 months and 345 days |
| `InterestExamples.YearEndToNewYear` | finance_calculator_app.py:33-48 | 31/12/2023 to 01/01/2024 on 1000 at 1 % counts 365 raw days from 01/01/2023, so 2 months, 335 days and 131.67 interest |
| `InterestExamples.LongerIntervalChargedLess` | finance_calculator_app.py:14-48 | from 15/06/2023 on 1000 at 1 %, ending on 14/06/2024 gives 13 months, 349 days and 246.33; ending on 15/06/2024 gives 1 year, 14 days and 125.23 with `timedelta` imported, and NameError at line 25 as written |
| `InterestExamples.TwoWholeYearsAsWritten` | finance_calculator_app.py:25 | 01/01/2023 to 01/01/2025 raises NameError at line 25 as written |
| `InterestExamples.TwoWholeYearsCorrected` | finance_calculator_app.py:23-30 | with `timedelta` imported, the same interval compounds twice, to 254.4 of interest on 1000 at 1 % |
| `InterestExamples.LeapDayStart` | finance_calculator_app.py:15-25 | a 29/02/2024 start raises ValueError at line 25 when it reaches 2028, and at line 15 when it ends in 2025 |

## Left out

- The Streamlit page at lines 53-148 is not modelled beyond the guard at line 111: configuration, styling, theme toggle, widgets and HTML output. It is presentation with no logic.
- `datetime.strptime` at lines 7-8 and 111 is left out. The model takes dates already parsed into valid triples, so a string that does not parse, and the message line 134 shows for it, are not modelled.
- Python floats are modelled as exact reals, and `round` as round-half-even on the exact value. Binary rounding error is not modelled.
- At line 114 the caller unpacks five names from the six values that line 50 returns. That `ValueError` is caught at line 134 and reported as a date-format error. `CalculateButton` stops at the outcome of the calculation.
- Line 134 turns every `ValueError`, including those from lines 15, 20 and 25, into the same message, and lets a `NameError` through. The model returns each error with its line instead of the message.
- The values of `year_start_date` and `year_end_date` (lines 24-25) are never used, so the model records only whether each can be built, not the date one day before the next anniversary.
- The source has one function. The model splits it into `CalculateInterest`, `CompoundWholeYears` (lines 23-30) and `ChargeRemainder` (lines 32-50), so that each proof stays small. The statements run in the source's order.
- Negative amounts and rates are refused by the input widgets (lines 105-106). The model accepts any real. `SettleNonNegative` and `InterestNonNegative` assume non-negative values.

## Findings

| source | as written | input that shows it | evidently intended | confidence | as-written member | corrected member |
|---|---|---|---|---|---|---|
| finance_calculator_app.py:25 | line 25 subtracts `timedelta(days=1)`, but line 2 imports only `datetime`, so an interval with a whole year raises NameError at the first iteration | 01/01/2023 to 01/01/2025 | `from datetime import datetime, timedelta`, so that the loop compounds each whole year | high; not executed | `InterestProperties.AsWrittenSucceeds` | `InterestProperties.CorrectedSucceeds` |
