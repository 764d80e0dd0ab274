/** Old- versus new-regime comparison (`compare_tax_regimes`): the old regime
    subtracts every claimed deduction, the new regime only a flat 75000
    standard deduction; both add 4% cess. */
module Regimes {
  import opened Common
  import opened TaxSlabs

  const NewStandardDeduction: real := 75000.0
  const Section24Cap: real := 200000.0
  const CessFactor: real := 1.04

  /** The comparison's inputs; the keyword defaults of the source are
      zero for every deduction except a standard deduction of 50000. */
  datatype TaxInputs = TaxInputs(
    gross: real,
    section80c: real,
    section80d: real,
    section80ccd1b: real,
    section24Interest: real,
    hraExemption: real,
    ltaExemption: real,
    standardDeduction: real,
    otherDeductions: real)

  function DefaultInputs(gross: real, section80c: real): TaxInputs
  {
    TaxInputs(gross, section80c, 0.0, 0.0, 0.0, 0.0, 0.0, 50000.0, 0.0)
  }

  datatype RegimeFigures = RegimeFigures(
    section24Eligible: real,
    totalDeductionsOld: real,
    taxableOld: real,
    taxOld: real,
    taxOldWithCess: real,
    taxableNew: real,
    taxNew: real,
    taxNewWithCess: real)

  /** The two regimes' figures, before any recommendation is made. */
  function Figures(i: TaxInputs): (f: RegimeFigures)
    ensures f.section24Eligible <= Section24Cap
    ensures i.section24Interest <= Section24Cap ==> f.section24Eligible == i.section24Interest
    // the smaller of the interest paid and the cap
    ensures f.section24Eligible <= i.section24Interest
    ensures f.section24Eligible == i.section24Interest || f.section24Eligible == Section24Cap
    ensures f.totalDeductionsOld
              == i.section80c + i.section80d + i.section80ccd1b + f.section24Eligible
                 + i.hraExemption + i.ltaExemption + i.standardDeduction + i.otherDeductions
    ensures f.taxableOld >= 0.0 && f.taxableOld >= i.gross - f.totalDeductionsOld
    ensures f.taxableOld == 0.0 || f.taxableOld == i.gross - f.totalDeductionsOld
    ensures f.taxableNew >= 0.0 && f.taxableNew >= i.gross - NewStandardDeduction
    ensures f.taxableNew == 0.0 || f.taxableNew == i.gross - NewStandardDeduction
    ensures f.taxOld == OldRegimeTax(f.taxableOld) && f.taxNew == NewRegimeTax(f.taxableNew)
    ensures 0.0 <= f.taxOld <= f.taxOldWithCess && 0.0 <= f.taxNew <= f.taxNewWithCess
    ensures f.taxOldWithCess == f.taxOld * CessFactor && f.taxNewWithCess == f.taxNew * CessFactor
    // the new regime charges nothing up to 3 lakh plus its 75000 deduction
    ensures f.taxNewWithCess == 0.0 <==> i.gross <= 375000.0
  {
    var s24 := Min(i.section24Interest, Section24Cap);
    var total := i.section80c + i.section80d + i.section80ccd1b + s24
                 + i.hraExemption + i.ltaExemption + i.standardDeduction + i.otherDeductions;
    var taxableOld := Max(0.0, i.gross - total);
    var taxableNew := Max(0.0, i.gross - NewStandardDeduction);
    var taxOld := OldRegimeTax(taxableOld);
    var taxNew := NewRegimeTax(taxableNew);
    RegimeFigures(s24, total, taxableOld, taxOld, taxOld * CessFactor,
                  taxableNew, taxNew, taxNew * CessFactor)
  }

  datatype Regime = OldRegime | NewRegime

  datatype RegimeComparison = RegimeComparison(
    figures: RegimeFigures,
    savingsWithNew: real,
    recommended: Regime)

  function TaxUnder(f: RegimeFigures, regime: Regime): real
  {
    match regime
    case OldRegime => f.taxOldWithCess
    case NewRegime => f.taxNewWithCess
  }

  function Other(regime: Regime): Regime
  {
    match regime
    case OldRegime => NewRegime
    case NewRegime => OldRegime
  }

  /** The comparison as the source writes it: `savings` is old minus new,
      the regime chosen is "new" when that is negative, and the reported
      saving with the new regime is its negation. */
  function CompareRegimesAsWritten(i: TaxInputs): (c: RegimeComparison)
    ensures c.figures == Figures(i)
    ensures c.recommended == NewRegime <==> c.figures.taxOldWithCess < c.figures.taxNewWithCess
    ensures c.savingsWithNew == c.figures.taxNewWithCess - c.figures.taxOldWithCess
  {
    var f := Figures(i);
    var savings := f.taxOldWithCess - f.taxNewWithCess;
    RegimeComparison(f, -savings, if savings < 0.0 then NewRegime else OldRegime)
  }

  /** The comparison as intended: recommend the regime with less tax (a tie
      stays with the old regime) and report how much the new one saves. */
  function CompareRegimes(i: TaxInputs): (c: RegimeComparison)
    ensures c.figures == Figures(i)
    ensures c.recommended == NewRegime <==> c.figures.taxNewWithCess < c.figures.taxOldWithCess
    ensures TaxUnder(c.figures, c.recommended) <= TaxUnder(c.figures, Other(c.recommended))
    ensures c.savingsWithNew == TaxUnder(c.figures, OldRegime) - TaxUnder(c.figures, NewRegime)
    ensures c.savingsWithNew > 0.0 <==> c.recommended == NewRegime
  {
    var f := Figures(i);
    var savings := f.taxOldWithCess - f.taxNewWithCess;
    RegimeComparison(f, savings, if savings > 0.0 then NewRegime else OldRegime)
  }

  /** Whenever the two regimes cost different amounts, the source recommends
      the costlier one, and its reported saving has the wrong sign. */
  lemma AsWrittenPicksCostlier(i: TaxInputs)
    ensures var c := CompareRegimesAsWritten(i);
            TaxUnder(c.figures, c.recommended) >= TaxUnder(c.figures, Other(c.recommended))
    ensures var f := Figures(i);
            f.taxOldWithCess != f.taxNewWithCess ==>
              CompareRegimesAsWritten(i).recommended != CompareRegimes(i).recommended
    ensures CompareRegimesAsWritten(i).savingsWithNew == -CompareRegimes(i).savingsWithNew
  {
  }

  /** A concrete case: gross 600000 with 150000 under 80C and the default
      50000 standard deduction. The old regime costs 7800 and the new 11700,
      yet the source recommends the new regime. */
  lemma AsWrittenCounterexample()
    ensures var f := Figures(DefaultInputs(600000.0, 150000.0));
            f.taxOldWithCess == 7800.0 && f.taxNewWithCess == 11700.0
    ensures CompareRegimesAsWritten(DefaultInputs(600000.0, 150000.0)).recommended == NewRegime
    ensures CompareRegimes(DefaultInputs(600000.0, 150000.0)).recommended == OldRegime
  {
    var f := Figures(DefaultInputs(600000.0, 150000.0));
    assert f.taxableOld == 400000.0;
    assert f.taxableNew == 525000.0;
  }

  /** Claiming more old-regime deductions never raises the old-regime tax. */
  lemma MoreDeductionsNeverRaiseOldTax(i: TaxInputs, j: TaxInputs)
    requires i.gross == j.gross
    requires Figures(i).totalDeductionsOld <= Figures(j).totalDeductionsOld
    ensures Figures(j).taxOldWithCess <= Figures(i).taxOldWithCess
  {
    OldRegimeMonotoneContinuous(Figures(j).taxableOld, Figures(i).taxableOld);
  }
}
