/**
 * The calculation on particular dates: the form's default inputs, a start
 * late in the year, a run with whole years to compound, and a 29 February
 * start.
 */
module InterestExamples {
  import opened Calendar
  import opened Interest

  /**
   * The form's defaults, 01/01/2024 to 31/12/2024 at 1.75 % a month on
   * 20000: no whole year, eleven calendar months and 30 days that roll over
   * into a twelfth month, so 12 months at 350 a month.
   */
  lemma DefaultInputs(imports: Imports)
    ensures InterestOutcome(Date(2024, 1, 1), Date(2024, 12, 31), 20000.0, 1.75, imports) ==
              Ok(Breakdown(0, 4200.0, 12, 0, 4200.0, 0.0))
  {
    var start, end := Date(2024, 1, 1), Date(2024, 12, 31);
    assert WholeYears(start, end) == Ok(Anniversary(0, start));
    assert RawDays(start, end) == 30;
    assert Leftover(start, end) == Remainder(12, 0);
    SettleDefaults();
  }

  lemma SettleDefaults()
    ensures Settle(20000.0, 1.75, 0, Remainder(12, 0)) == Breakdown(0, 4200.0, 12, 0, 4200.0, 0.0)
  {
    assert MonthlyInterest(20000.0, 1.75) == 350.0;
    Rounding.Round2OfCents(0.0);
  }

  /**
   * 01/01/2024 to 15/06/2024 at 2 % on 10000: five months and the fourteen
   * days of June before the 15th, whose 93.333... is rounded to 93.33.
   */
  lemma EndMidMonth(imports: Imports)
    ensures InterestOutcome(Date(2024, 1, 1), Date(2024, 6, 15), 10000.0, 2.0, imports) ==
              Ok(Breakdown(0, 1093.33, 5, 14, 1000.0, 93.33))
  {
    var start, end := Date(2024, 1, 1), Date(2024, 6, 15);
    assert WholeYears(start, end) == Ok(Anniversary(0, start));
    assert RawDays(start, end) == 14;
    assert Leftover(start, end) == Remainder(5, 14);
    SettleMidMonth();
  }

  lemma SettleMidMonth()
    ensures Settle(10000.0, 2.0, 0, Remainder(5, 14)) == Breakdown(0, 1093.33, 5, 14, 1000.0, 93.33)
  {
    assert MonthlyInterest(10000.0, 2.0) == 200.0;
    assert Rounding.Round2(200.0 * (14 as real / 30.0)) == 93.33;
  }

  /**
   * 15/06/2023 to 10/03/2024: the anniversary is 15/06/2023 itself, and the
   * days are counted from 01/03/2023, a year before `end`'s month, so 375
   * raw days become one more month and 345 days.
   */
  lemma StartLateInYear(imports: Imports)
    ensures InterestOutcome(Date(2023, 6, 15), Date(2024, 3, 10), 1000.0, 1.0, imports) ==
              Ok(Breakdown(0, 215.0, 10, 345, 100.0, 115.0))
  {
    var start, end := Date(2023, 6, 15), Date(2024, 3, 10);
    assert WholeYears(start, end) == Ok(Anniversary(0, start));
    DaysBeforeYearStep(2023);
    assert RawDays(start, end) == 375;
    assert Leftover(start, end) == Remainder(10, 345);
    SettleLateStart();
  }

  lemma SettleLateStart()
    ensures Settle(1000.0, 1.0, 0, Remainder(10, 345)) == Breakdown(0, 215.0, 10, 345, 100.0, 115.0)
  {
    assert MonthlyInterest(1000.0, 1.0) == 10.0;
    Rounding.Round2OfCents(115.0);
    assert DaysInterest(1000.0, 1.0, 345) == 115.0;
  }

  /**
   * 31/12/2023 to 01/01/2024 at 1 % on 1000: one calendar month, but the days
   * run from 01/01/2023, so 365 raw days become one more month and 335 days.
   */
  lemma YearEndToNewYear(imports: Imports)
    ensures InterestOutcome(Date(2023, 12, 31), Date(2024, 1, 1), 1000.0, 1.0, imports) ==
              Ok(Breakdown(0, 131.67, 2, 335, 20.0, 111.67))
  {
    var start, end := Date(2023, 12, 31), Date(2024, 1, 1);
    assert WholeYears(start, end) == Ok(Anniversary(0, start));
    DaysBeforeYearStep(2023);
    assert RawDays(start, end) == 365;
    assert Leftover(start, end) == Remainder(2, 335);
    SettleYearEnd();
  }

  lemma SettleYearEnd()
    ensures Settle(1000.0, 1.0, 0, Remainder(2, 335)) == Breakdown(0, 131.67, 2, 335, 20.0, 111.67)
  {
    assert MonthlyInterest(1000.0, 1.0) == 10.0;
    assert (10.0 * (335 as real / 30.0) * 100.0).Floor == 11166;
    assert DaysInterest(1000.0, 1.0, 335) == 111.67;
  }

  /**
   * A longer interval can be charged less. From 15/06/2023, ending on
   * 14/06/2024 counts no whole year but 13 months and 349 days, since the
   * days run from 01/06/2023; ending a day later, on the anniversary, counts
   * one whole year and the 14 days of June 2024 before the 15th. As written,
   * the later end raises NameError at line 25 instead.
   */
  lemma LongerIntervalChargedLess()
    ensures InterestOutcome(Date(2023, 6, 15), Date(2024, 6, 14), 1000.0, 1.0, DatetimeAndTimedelta) ==
              Ok(Breakdown(0, 246.33, 13, 349, 130.0, 116.33))
    ensures InterestOutcome(Date(2023, 6, 15), Date(2024, 6, 15), 1000.0, 1.0, DatetimeAndTimedelta) ==
              Ok(Breakdown(1, 125.23, 0, 14, 0.0, 5.23))
    ensures InterestOutcome(Date(2023, 6, 15), Date(2024, 6, 15), 1000.0, 1.0, DatetimeOnly) ==
              Err(NameError(25))
  {
    DayBeforeAnniversary();
    OnAnniversary();
  }

  lemma DayBeforeAnniversary()
    ensures InterestOutcome(Date(2023, 6, 15), Date(2024, 6, 14), 1000.0, 1.0, DatetimeAndTimedelta) ==
              Ok(Breakdown(0, 246.33, 13, 349, 130.0, 116.33))
  {
    var start, end := Date(2023, 6, 15), Date(2024, 6, 14);
    assert WholeYears(start, end) == Ok(Anniversary(0, start));
    DaysBeforeYearStep(2023);
    assert RawDays(start, end) == 379;
    assert Leftover(start, end) == Remainder(13, 349);
    SettleDayBefore();
  }

  lemma SettleDayBefore()
    ensures Settle(1000.0, 1.0, 0, Remainder(13, 349)) == Breakdown(0, 246.33, 13, 349, 130.0, 116.33)
  {
    assert MonthlyInterest(1000.0, 1.0) == 10.0;
    assert (10.0 * (349 as real / 30.0) * 100.0).Floor == 11633;
    assert DaysInterest(1000.0, 1.0, 349) == 116.33;
  }

  lemma OnAnniversary()
    ensures InterestOutcome(Date(2023, 6, 15), Date(2024, 6, 15), 1000.0, 1.0, DatetimeAndTimedelta) ==
              Ok(Breakdown(1, 125.23, 0, 14, 0.0, 5.23))
    ensures InterestOutcome(Date(2023, 6, 15), Date(2024, 6, 15), 1000.0, 1.0, DatetimeOnly) ==
              Err(NameError(25))
  {
    var start, end := Date(2023, 6, 15), Date(2024, 6, 15);
    assert WholeYears(start, end) == Ok(Anniversary(1, end));
    assert YearLoop(start, 1, 1, DatetimeAndTimedelta) == None;
    assert RawDays(end, end) == 14;
    assert Leftover(end, end) == Remainder(0, 14);
    SettleOneYear();
  }

  lemma SettleOneYear()
    ensures Settle(1000.0, 1.0, 1, Remainder(0, 14)) == Breakdown(1, 125.23, 0, 14, 0.0, 5.23)
  {
    assert Compounded(1000.0, 1.0, 1) == 1120.0;
    assert YearlyInterestSum(1000.0, 1.0, 1) == 120.0;
    assert MonthlyInterest(1120.0, 1.0) == 11.2;
    assert (11.2 * (14 as real / 30.0) * 100.0).Floor == 522;
    assert DaysInterest(1120.0, 1.0, 14) == 5.23;
  }

  /**
   * 01/01/2023 to 01/01/2025: two whole years. As written the first
   * iteration raises NameError at line 25.
   */
  lemma TwoWholeYearsAsWritten()
    ensures InterestOutcome(Date(2023, 1, 1), Date(2025, 1, 1), 1000.0, 1.0, DatetimeOnly) ==
              Err(NameError(25))
  {
    assert WholeYears(Date(2023, 1, 1), Date(2025, 1, 1)) == Ok(Anniversary(2, Date(2025, 1, 1)));
  }

  /** With `timedelta` imported, the principal grows by 12 % twice, to 1254.4. */
  lemma TwoWholeYearsCorrected()
    ensures InterestOutcome(Date(2023, 1, 1), Date(2025, 1, 1), 1000.0, 1.0, DatetimeAndTimedelta) ==
              Ok(Breakdown(2, 254.4, 0, 0, 0.0, 0.0))
  {
    var start, end := Date(2023, 1, 1), Date(2025, 1, 1);
    assert WholeYears(start, end) == Ok(Anniversary(2, end));
    assert YearLoop(start, 1, 2, DatetimeAndTimedelta) == None;
    assert Leftover(end, end) == Remainder(0, 0);
    SettleTwoYears();
  }

  lemma SettleTwoYears()
    ensures Settle(1000.0, 1.0, 2, Remainder(0, 0)) == Breakdown(2, 254.4, 0, 0, 0.0, 0.0)
  {
    assert Compounded(1000.0, 1.0, 1) == 1120.0;
    assert Compounded(1000.0, 1.0, 2) == 1254.4;
    assert YearlyInterestSum(1000.0, 1.0, 2) == 254.4;
    Rounding.Round2OfCents(0.0);
  }

  /**
   * 29/02/2024 to 01/03/2028: the anniversary exists, but the first
   * iteration asks for 29/02/2025 at line 25. 29/02/2024 to 01/03/2025
   * already fails at line 15.
   */
  lemma LeapDayStart(imports: Imports)
    ensures InterestOutcome(Date(2024, 2, 29), Date(2028, 3, 1), 1000.0, 1.0, imports) == Err(ValueError(25))
    ensures InterestOutcome(Date(2024, 2, 29), Date(2025, 3, 1), 1000.0, 1.0, imports) == Err(ValueError(15))
  {
    assert WholeYears(Date(2024, 2, 29), Date(2028, 3, 1)) == Ok(Anniversary(4, Date(2028, 2, 29)));
    assert ReplaceYear(Date(2024, 2, 29), 2025).None?;
  }
}
