/** SIP projection with annual step-up (`calculate_sip_returns`): twelve
    monthly instalments a year, each paid in and then compounded for the
    month at annual-return / 12; after every year the instalment grows by
    the step-up percentage. */
module Sip {
  import opened Common
  import opened Compounding

  const AssumedInflationPercent: real := 6.0

  /** One row of the year-by-year projection. */
  datatype YearRecord = YearRecord(
    year: nat,
    monthlySip: real,
    investedThisYear: real,
    totalInvested: real,
    valueAtYearEnd: real,
    returnsThisYear: real,
    totalReturns: real)

  /** The factor by which the instalment grows from one year to the next. */
  function StepFactor(stepUpPercent: real): real
  {
    1.0 + stepUpPercent / 100.0
  }

  /** `count` years of the projection starting at year number `year`, with
      instalment `sip`, after `invested` has been paid in and the portfolio
      is worth `value`. */
  function Schedule(year: nat, count: nat, sip: real, r: real, stepUp: real,
                    invested: real, value: real): (s: seq<YearRecord>)
    ensures |s| == count
    decreases count
  {
    if count == 0 then []
    else
      var row := YearRow(year, sip, r, invested, value);
      [row] + Schedule(year + 1, count - 1, NextSip(sip, stepUp), r, stepUp,
                       row.totalInvested, row.valueAtYearEnd)
  }

  /** One year: twelve instalments of `sip` paid into a portfolio worth
      `value`, after `invested` had been paid in earlier years. */
  function YearRow(year: nat, sip: real, r: real, invested: real, value: real): YearRecord
  {
    var yearInvested := 12.0 * sip;
    var endValue := Grow(value, sip, r, 12);
    var total := invested + yearInvested;
    YearRecord(year, sip, yearInvested, total, endValue, endValue - value - yearInvested, endValue - total)
  }

  /** Next year's instalment. */
  function NextSip(sip: real, stepUp: real): real
  {
    sip * StepFactor(stepUp)
  }

  /** The instalment after i yearly step-ups. */
  function SteppedSip(sip: real, stepUp: real, i: nat): real
  {
    sip * Pow(StepFactor(stepUp), i)
  }

  lemma SteppedSipShift(sip: real, stepUp: real, i: nat)
    ensures SteppedSip(NextSip(sip, stepUp), stepUp, i) == SteppedSip(sip, stepUp, i + 1)
  {
    var q := StepFactor(stepUp);
    assert Pow(q, i + 1) == q * Pow(q, i);
    assert (sip * q) * Pow(q, i) == sip * (q * Pow(q, i));
  }

  /** The amount that compounds yearly at `ratePercent` into `x` after
      `years` years. */
  function Discount(x: real, ratePercent: real, years: nat): (y: real)
    requires ratePercent > -100.0
    ensures y * Pow(1.0 + ratePercent / 100.0, years) == x
  {
    PowPositive(1.0 + ratePercent / 100.0, years);
    x / Pow(1.0 + ratePercent / 100.0, years)
  }

  /** Row i is year `year + i`, its instalment is the first one stepped up i
      times, and it pays twelve instalments. */
  lemma {:induction false} ScheduleShape(year: nat, count: nat, sip: real, r: real, stepUp: real,
                                         invested: real, value: real)
    ensures var s := Schedule(year, count, sip, r, stepUp, invested, value);
            forall i :: 0 <= i < |s| ==>
              && s[i].year == year + i
              && s[i].monthlySip == SteppedSip(sip, stepUp, i)
              && s[i].investedThisYear == 12.0 * s[i].monthlySip
              && s[i].totalReturns == s[i].valueAtYearEnd - s[i].totalInvested
    decreases count
  {
    if count > 0 {
      var q := StepFactor(stepUp);
      var s := Schedule(year, count, sip, r, stepUp, invested, value);
      var row := YearRow(year, sip, r, invested, value);
      var endValue, total := row.valueAtYearEnd, row.totalInvested;
      var rest := Schedule(year + 1, count - 1, NextSip(sip, stepUp), r, stepUp, total, endValue);
      ScheduleShape(year + 1, count - 1, NextSip(sip, stepUp), r, stepUp, total, endValue);
      assert s == [row] + rest;
      forall i | 0 <= i < |s|
        ensures s[i].year == year + i
        ensures s[i].monthlySip == SteppedSip(sip, stepUp, i)
        ensures s[i].investedThisYear == 12.0 * s[i].monthlySip
        ensures s[i].totalReturns == s[i].valueAtYearEnd - s[i].totalInvested
      {
        if i > 0 {
          assert s[i] == rest[i - 1];
          SteppedSipShift(sip, stepUp, i - 1);
        } else {
          assert Pow(q, 0) == 1.0;
        }
      }
    }
  }

  /** How consecutive rows chain: cumulative investment adds this year's
      twelve instalments, and the year-end value is last year's value grown
      through twelve more months. */
  lemma ScheduleChains(year: nat, count: nat, sip: real, r: real, stepUp: real,
                       invested: real, value: real)
    ensures var s := Schedule(year, count, sip, r, stepUp, invested, value);
            && (|s| > 0 ==>
                  && s[0].totalInvested == invested + s[0].investedThisYear
                  && s[0].valueAtYearEnd == Grow(value, s[0].monthlySip, r, 12)
                  && s[0].returnsThisYear == s[0].valueAtYearEnd - value - s[0].investedThisYear)
            && (forall i :: 0 < i < |s| ==>
                  && s[i].totalInvested == s[i - 1].totalInvested + s[i].investedThisYear
                  && s[i].valueAtYearEnd == Grow(s[i - 1].valueAtYearEnd, s[i].monthlySip, r, 12)
                  && s[i].returnsThisYear
                     == s[i].valueAtYearEnd - s[i - 1].valueAtYearEnd - s[i].investedThisYear)
  {
    InvestedChains(year, count, sip, r, stepUp, invested, value);
    ValueChains(year, count, sip, r, stepUp, invested, value);
  }

  lemma {:induction false} InvestedChains(year: nat, count: nat, sip: real, r: real, stepUp: real,
                                          invested: real, value: real)
    ensures var s := Schedule(year, count, sip, r, stepUp, invested, value);
            && (|s| > 0 ==> s[0].totalInvested == invested + s[0].investedThisYear)
            && (forall i :: 0 < i < |s| ==>
                  s[i].totalInvested == s[i - 1].totalInvested + s[i].investedThisYear)
    decreases count
  {
    if count > 0 {
      var s := Schedule(year, count, sip, r, stepUp, invested, value);
      var row := YearRow(year, sip, r, invested, value);
      var rest := Schedule(year + 1, count - 1, NextSip(sip, stepUp), r, stepUp,
                           row.totalInvested, row.valueAtYearEnd);
      InvestedChains(year + 1, count - 1, NextSip(sip, stepUp), r, stepUp,
                     row.totalInvested, row.valueAtYearEnd);
      assert s == [row] + rest;
      forall i | 0 < i < |s|
        ensures s[i].totalInvested == s[i - 1].totalInvested + s[i].investedThisYear
      {
        assert s[i] == rest[i - 1];
        if i > 1 {
          assert s[i - 1] == rest[i - 2];
        }
      }
    }
  }

  lemma {:induction false} ValueChains(year: nat, count: nat, sip: real, r: real, stepUp: real,
                                       invested: real, value: real)
    ensures var s := Schedule(year, count, sip, r, stepUp, invested, value);
            && (|s| > 0 ==>
                  && s[0].valueAtYearEnd == Grow(value, s[0].monthlySip, r, 12)
                  && s[0].returnsThisYear == s[0].valueAtYearEnd - value - s[0].investedThisYear)
            && (forall i :: 0 < i < |s| ==>
                  && s[i].valueAtYearEnd == Grow(s[i - 1].valueAtYearEnd, s[i].monthlySip, r, 12)
                  && s[i].returnsThisYear
                     == s[i].valueAtYearEnd - s[i - 1].valueAtYearEnd - s[i].investedThisYear)
    decreases count
  {
    if count > 0 {
      var s := Schedule(year, count, sip, r, stepUp, invested, value);
      var row := YearRow(year, sip, r, invested, value);
      var rest := Schedule(year + 1, count - 1, NextSip(sip, stepUp), r, stepUp,
                           row.totalInvested, row.valueAtYearEnd);
      ValueChains(year + 1, count - 1, NextSip(sip, stepUp), r, stepUp,
                  row.totalInvested, row.valueAtYearEnd);
      assert s == [row] + rest;
      forall i | 0 < i < |s|
        ensures s[i].valueAtYearEnd == Grow(s[i - 1].valueAtYearEnd, s[i].monthlySip, r, 12)
        ensures s[i].returnsThisYear
                == s[i].valueAtYearEnd - s[i - 1].valueAtYearEnd - s[i].investedThisYear
      {
        assert s[i] == rest[i - 1];
        if i > 1 {
          assert s[i - 1] == rest[i - 2];
        }
      }
    }
  }

  /** With a positive instalment, a positive return and no step-down, every
      year ends worth more than was paid in so far. */
  lemma ScheduleProfits(year: nat, count: nat, sip: real, r: real, stepUp: real,
                        invested: real, value: real)
    requires sip > 0.0 && r > 0.0 && stepUp >= 0.0 && 0.0 <= invested <= value
    ensures var s := Schedule(year, count, sip, r, stepUp, invested, value);
            forall i :: 0 <= i < |s| ==> 0.0 < s[i].totalInvested < s[i].valueAtYearEnd
  {
    forall i | 0 <= i < count
      ensures 0.0 < Schedule(year, count, sip, r, stepUp, invested, value)[i].totalInvested
              < Schedule(year, count, sip, r, stepUp, invested, value)[i].valueAtYearEnd
    {
      RowIProfits(year, count, sip, r, stepUp, invested, value, i);
    }
  }

  /** Row i of the projection ends worth more than was paid in so far. */
  lemma {:induction false} RowIProfits(year: nat, count: nat, sip: real, r: real, stepUp: real,
                                       invested: real, value: real, i: nat)
    requires sip > 0.0 && r > 0.0 && stepUp >= 0.0 && 0.0 <= invested <= value
    requires i < count
    ensures var s := Schedule(year, count, sip, r, stepUp, invested, value);
            0.0 < s[i].totalInvested < s[i].valueAtYearEnd
    decreases i
  {
    var s := Schedule(year, count, sip, r, stepUp, invested, value);
    var row := YearRow(year, sip, r, invested, value);
    var rest := Schedule(year + 1, count - 1, NextSip(sip, stepUp), r, stepUp,
                         row.totalInvested, row.valueAtYearEnd);
    assert s == [row] + rest;
    RowProfits(year, sip, r, invested, value);
    if i > 0 {
      NextSipPositive(sip, stepUp);
      RowIProfits(year + 1, count - 1, NextSip(sip, stepUp), r, stepUp,
                  row.totalInvested, row.valueAtYearEnd, i - 1);
      assert s[i] == rest[i - 1];
    }
  }

  lemma RowProfits(year: nat, sip: real, r: real, invested: real, value: real)
    requires sip > 0.0 && r > 0.0 && 0.0 <= invested <= value
    ensures var row := YearRow(year, sip, r, invested, value);
            0.0 < row.totalInvested < row.valueAtYearEnd
  {
    GrowExceedsContributions(value, sip, r, 12);
  }

  lemma NextSipPositive(sip: real, stepUp: real)
    requires sip > 0.0 && stepUp >= 0.0
    ensures NextSip(sip, stepUp) > 0.0
  {
  }

  /** With a positive instalment and no step-down, cumulative investment
      strictly increases from year to year. */
  lemma {:induction false} ScheduleInvestedIncreases(year: nat, count: nat, sip: real, r: real,
                                                     stepUp: real, invested: real, value: real)
    requires sip > 0.0 && stepUp >= 0.0
    ensures var s := Schedule(year, count, sip, r, stepUp, invested, value);
            && (|s| > 0 ==> invested < s[0].totalInvested)
            && (forall i :: 0 <= i < |s| - 1 ==> s[i].totalInvested < s[i + 1].totalInvested)
    decreases count
  {
    if count > 0 {
      var s := Schedule(year, count, sip, r, stepUp, invested, value);
      var row := YearRow(year, sip, r, invested, value);
      var rest := Schedule(year + 1, count - 1, NextSip(sip, stepUp), r, stepUp,
                           row.totalInvested, row.valueAtYearEnd);
      assert s == [row] + rest;
      NextSipPositive(sip, stepUp);
      ScheduleInvestedIncreases(year + 1, count - 1, NextSip(sip, stepUp), r, stepUp,
                                row.totalInvested, row.valueAtYearEnd);
      forall i | 0 <= i < |s| - 1
        ensures s[i].totalInvested < s[i + 1].totalInvested
      {
        assert s[i + 1] == rest[i];
        if i > 0 {
          assert s[i] == rest[i - 1];
        }
      }
    }
  }

  /** With no step-up the yearly rows are one uninterrupted run of monthly
      compounding: the last row's value is the whole horizon grown at once. */
  lemma ScheduleFlat(year: nat, count: nat, sip: real, r: real, invested: real, value: real)
    requires count >= 1
    ensures var s := Schedule(year, count, sip, r, 0.0, invested, value);
            && s[count - 1].valueAtYearEnd == Grow(value, sip, r, 12 * count)
            && s[count - 1].totalInvested == invested + 12.0 * count as real * sip
  {
    ScheduleFlatValue(year, count, sip, r, invested, value);
    ScheduleFlatInvested(year, count, sip, r, invested, value);
    InstalmentsClosedForm(sip, count);
  }

  /** The flat schedule's next rows start from the first row's totals. */
  lemma FlatScheduleSplit(year: nat, count: nat, sip: real, r: real, invested: real, value: real)
    requires count >= 2
    ensures var s := Schedule(year, count, sip, r, 0.0, invested, value);
            var row := YearRow(year, sip, r, invested, value);
            && row.totalInvested == invested + 12.0 * sip
            && row.valueAtYearEnd == Grow(value, sip, r, 12)
            && s[count - 1]
               == Schedule(year + 1, count - 1, sip, r, 0.0, row.totalInvested, row.valueAtYearEnd)[count - 2]
  {
    var s := Schedule(year, count, sip, r, 0.0, invested, value);
    var row := YearRow(year, sip, r, invested, value);
    assert NextSip(sip, 0.0) == sip;
    var rest := Schedule(year + 1, count - 1, sip, r, 0.0, row.totalInvested, row.valueAtYearEnd);
    assert s == [row] + rest;
  }

  lemma {:induction false} ScheduleFlatValue(year: nat, count: nat, sip: real, r: real,
                                             invested: real, value: real)
    requires count >= 1
    ensures Schedule(year, count, sip, r, 0.0, invested, value)[count - 1].valueAtYearEnd
            == Grow(value, sip, r, 12 * count)
    decreases count
  {
    if count == 1 {
      assert Schedule(year, count, sip, r, 0.0, invested, value)[0] == YearRow(year, sip, r, invested, value);
    } else {
      var row := YearRow(year, sip, r, invested, value);
      FlatScheduleSplit(year, count, sip, r, invested, value);
      ScheduleFlatValue(year + 1, count - 1, sip, r, row.totalInvested, row.valueAtYearEnd);
      GrowSplit(value, sip, r, 12, 12 * (count - 1));
    }
  }

  /** Twelve instalments of `sip` a year for `count` years, summed year by year. */
  function Instalments(sip: real, count: nat): real
  {
    if count == 0 then 0.0 else Instalments(sip, count - 1) + 12.0 * sip
  }

  lemma {:induction false} InstalmentsClosedForm(sip: real, count: nat)
    ensures Instalments(sip, count) == 12.0 * count as real * sip
  {
    if count > 0 {
      InstalmentsClosedForm(sip, count - 1);
      assert 12.0 * (count - 1) as real * sip + 12.0 * sip == 12.0 * count as real * sip;
    }
  }

  lemma {:induction false} ScheduleFlatInvested(year: nat, count: nat, sip: real, r: real,
                                                invested: real, value: real)
    requires count >= 1
    ensures Schedule(year, count, sip, r, 0.0, invested, value)[count - 1].totalInvested
            == invested + Instalments(sip, count)
    decreases count
  {
    if count == 1 {
      assert Schedule(year, count, sip, r, 0.0, invested, value)[0] == YearRow(year, sip, r, invested, value);
    } else {
      var row := YearRow(year, sip, r, invested, value);
      FlatScheduleSplit(year, count, sip, r, invested, value);
      ScheduleFlatInvested(year + 1, count - 1, sip, r, row.totalInvested, row.valueAtYearEnd);
    }
  }

  datatype SipReport = SipReport(
    schedule: seq<YearRecord>,
    totalInvested: real,
    maturityValue: real,
    totalReturns: real,
    equivalentLumpSum: real,
    realReturnPercent: real,
    inflationAdjustedValue: real,
    projection: seq<YearRecord>,
    finalYear: YearRecord,
    finalSipNote: real)

  /** The SIP projection. The note on the final SIP reports the instalment
      actually paid in the last year. */
  function SipReturns(monthly: real, annualReturn: real, years: int, stepUp: real): (r: Result<SipReport>)
    ensures monthly <= 0.0 ==> r == Err(NonPositiveInvestment)
    ensures monthly > 0.0 && (annualReturn <= 0.0 || annualReturn > 50.0) ==> r == Err(ReturnOutOfRange)
    ensures (monthly > 0.0 && 0.0 < annualReturn <= 50.0 && (years <= 0 || years > 50)) ==>
              r == Err(YearsOutOfRange)
    ensures (monthly > 0.0 && 0.0 < annualReturn <= 50.0 && 1 <= years <= 50
             && (stepUp < 0.0 || stepUp > 50.0)) ==> r == Err(StepUpOutOfRange)
    ensures r.Ok? <==> monthly > 0.0 && 0.0 < annualReturn <= 50.0 && 1 <= years <= 50
                       && 0.0 <= stepUp <= 50.0
    ensures r.Ok? ==>
      var s := r.value.schedule;
      // the rows are the yearly loop from year 1 with nothing invested yet
      && s == Schedule(1, years, monthly, MonthlyRate(annualReturn), stepUp, 0.0, 0.0)
      && |s| == years
      && r.value.finalYear == s[years - 1]
      && r.value.totalInvested == s[years - 1].totalInvested
      && r.value.maturityValue == s[years - 1].valueAtYearEnd
      && r.value.totalReturns == r.value.maturityValue - r.value.totalInvested
      && r.value.projection == s[..MinInt(5, years)]
      && r.value.finalSipNote == r.value.finalYear.monthlySip
      // the lump sum that grows at the annual return into what the SIP paid in
      && r.value.equivalentLumpSum == Discount(r.value.totalInvested, annualReturn, years)
      // today's money after 6% yearly inflation
      && r.value.inflationAdjustedValue == Discount(r.value.maturityValue, AssumedInflationPercent, years)
      // the Fisher relation: nominal = real compounded with inflation
      && (1.0 + r.value.realReturnPercent / 100.0) * (1.0 + AssumedInflationPercent / 100.0)
         == 1.0 + annualReturn / 100.0
  {
    if monthly <= 0.0 then Err(NonPositiveInvestment)
    else if annualReturn <= 0.0 || annualReturn > 50.0 then Err(ReturnOutOfRange)
    else if years <= 0 || years > 50 then Err(YearsOutOfRange)
    else if stepUp < 0.0 || stepUp > 50.0 then Err(StepUpOutOfRange)
    else
      var s := Schedule(1, years, monthly, MonthlyRate(annualReturn), stepUp, 0.0, 0.0);
      var last := s[years - 1];
      var realRate := ((1.0 + annualReturn / 100.0) / (1.0 + AssumedInflationPercent / 100.0) - 1.0) * 100.0;
      Ok(SipReport(s, last.totalInvested, last.valueAtYearEnd,
                   last.valueAtYearEnd - last.totalInvested,
                   Discount(last.totalInvested, annualReturn, years), realRate,
                   Discount(last.valueAtYearEnd, AssumedInflationPercent, years),
                   s[..MinInt(5, years)], last, last.monthlySip))
  }

  /** Every accepted projection ends worth more than was paid in, pays
      `years` rows numbered 1..years with the instalment stepped up yearly,
      and its cumulative investment strictly increases. */
  lemma SipReturnsProfits(monthly: real, annualReturn: real, years: int, stepUp: real)
    requires monthly > 0.0 && 0.0 < annualReturn <= 50.0 && 1 <= years <= 50 && 0.0 <= stepUp <= 50.0
    ensures var rep := SipReturns(monthly, annualReturn, years, stepUp).value;
            && 0.0 < rep.totalInvested < rep.maturityValue
            && rep.totalReturns > 0.0
            && (forall i :: 0 <= i < |rep.schedule| ==>
                  rep.schedule[i].year == i + 1
                  && rep.schedule[i].monthlySip == SteppedSip(monthly, stepUp, i))
            && (forall i :: 0 <= i < |rep.schedule| - 1 ==>
                  rep.schedule[i].totalInvested < rep.schedule[i + 1].totalInvested)
  {
    var mr := MonthlyRate(annualReturn);
    ScheduleShape(1, years, monthly, mr, stepUp, 0.0, 0.0);
    ScheduleProfits(1, years, monthly, mr, stepUp, 0.0, 0.0);
    ScheduleInvestedIncreases(1, years, monthly, mr, stepUp, 0.0, 0.0);
  }

  /** Without step-up the projection is one annuity-due over n = 12 × years
      months: the total paid in is monthly × 12 × years and the maturity is
      that annuity's value, whose closed form P × ((1+r)^n − 1) / r × (1+r)
      is `Compounding.GrowFromZeroClosedForm`. */
  lemma SipFlatClosedForm(monthly: real, annualReturn: real, years: int)
    requires monthly > 0.0 && 0.0 < annualReturn <= 50.0 && 1 <= years <= 50
    ensures var rep := SipReturns(monthly, annualReturn, years, 0.0).value;
            var mr := MonthlyRate(annualReturn);
            && rep.totalInvested == monthly * 12.0 * years as real
            && rep.maturityValue == Grow(0.0, monthly, mr, 12 * years)
  {
    var mr := MonthlyRate(annualReturn);
    var rep := SipReturns(monthly, annualReturn, years, 0.0).value;
    var s := Schedule(1, years, monthly, mr, 0.0, 0.0, 0.0);
    assert rep.maturityValue == s[years - 1].valueAtYearEnd;
    assert rep.totalInvested == s[years - 1].totalInvested;
    ScheduleFlat(1, years, monthly, mr, 0.0, 0.0);
  }

  /** The note printed as "Final SIP (Year N)" in the source: the instalment
      after the loop has applied one more step-up than year N used. */
  function FinalSipNoteAsWritten(monthly: real, years: nat, stepUp: real): (note: real)
    ensures years == 0 ==> note == monthly
    // one step-up past the instalment of the last year, year N
    ensures years >= 1 ==> note == NextSip(SteppedSip(monthly, stepUp, years - 1), stepUp)
  {
    if years == 0 then monthly
    else
      SteppedSipStep(monthly, stepUp, years - 1);
      SteppedSip(monthly, stepUp, years)
  }

  lemma SteppedSipStep(sip: real, stepUp: real, i: nat)
    ensures SteppedSip(sip, stepUp, i + 1) == NextSip(SteppedSip(sip, stepUp, i), stepUp)
  {
    var q := StepFactor(stepUp);
    var y := Pow(q, i);
    assert Pow(q, i + 1) == q * y;
    assert sip * (q * y) == (sip * y) * q;
  }

  /** With a positive step-up the printed final SIP exceeds the instalment
      of the last year by exactly one step-up. */
  lemma FinalSipNoteOvershoots(monthly: real, annualReturn: real, years: int, stepUp: real)
    requires monthly > 0.0 && 0.0 < annualReturn <= 50.0 && 1 <= years <= 50 && 0.0 < stepUp <= 50.0
    ensures var rep := SipReturns(monthly, annualReturn, years, stepUp).value;
            && FinalSipNoteAsWritten(monthly, years, stepUp) == NextSip(rep.finalSipNote, stepUp)
            && FinalSipNoteAsWritten(monthly, years, stepUp) > rep.finalSipNote
  {
    var rep := SipReturns(monthly, annualReturn, years, stepUp).value;
    ScheduleShape(1, years, monthly, MonthlyRate(annualReturn), stepUp, 0.0, 0.0);
    assert rep.finalSipNote == SteppedSip(monthly, stepUp, years - 1);
    SteppedSipGrows(monthly, stepUp, years - 1);
  }

  lemma SteppedSipGrows(sip: real, stepUp: real, i: nat)
    requires sip > 0.0 && stepUp > 0.0
    ensures SteppedSip(sip, stepUp, i + 1) == NextSip(SteppedSip(sip, stepUp, i), stepUp)
    ensures SteppedSip(sip, stepUp, i + 1) > SteppedSip(sip, stepUp, i)
  {
    var q := StepFactor(stepUp);
    var y := Pow(q, i);
    PowPositive(q, i);
    assert Pow(q, i + 1) == q * y;
    assert sip * (q * y) == (sip * y) * q;
    assert sip * y > 0.0;
  }

  /** A 5000 monthly SIP with a 10% step-up over one year: the only year pays
      5000 a month, but the note reports 5500. */
  lemma FinalSipNoteCounterexample()
    ensures SipReturns(5000.0, 12.0, 1, 10.0).value.finalSipNote == 5000.0
    ensures FinalSipNoteAsWritten(5000.0, 1, 10.0) == 5500.0
  {
    var s := Schedule(1, 1, 5000.0, MonthlyRate(12.0), 10.0, 0.0, 0.0);
    assert s[0].monthlySip == 5000.0;
  }
}
