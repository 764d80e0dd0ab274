/** Retirement savings: the EPF/VPF maturity projection
    (`calculate_epf_vpf_returns`) and the corpus a retirement needs with the
    SIP that builds it (`calculate_retirement_corpus`). */
module Retirement {
  import opened Common
  import opened Compounding

  // ---------------------------------------------------------------- EPF / VPF

  const EpfWageCeiling: real := 15000.0
  const EpsShare: real := 0.0833
  const EpsCap: real := 1250.0

  datatype EpfReport = EpfReport(
    applicableBasic: real,
    employeeEpf: real,
    employerEpf: real,
    employerEps: real,
    vpf: real,
    totalMonthly: real,
    annualContribution: real,
    maturity: real,
    totalContributions: real,
    interestEarned: real)

  /** Months in `years` years; negative when the source is given a negative
      horizon, which it does not reject. */
  function MonthsIn(years: int): int
  {
    years * 12
  }

  /** The EPF/VPF projection. Employee and employer shares apply to the basic
      capped at the wage ceiling; the employer's pension (EPS) part is taken
      out of its share; VPF applies to the whole basic. A positive monthly
      rate compounds the balance and the month-start contributions through
      the annuity-due closed form; otherwise the contributions are summed. */
  function EpfVpf(basic: real, employeePct: real, employerPct: real, vpfPct: real,
                  balance: real, years: int, interestRate: real): (r: EpfReport)
    ensures r.applicableBasic <= EpfWageCeiling
    ensures r.applicableBasic == basic || r.applicableBasic == EpfWageCeiling
    ensures basic <= EpfWageCeiling ==> r.applicableBasic == basic
    // the pension cap of 1250 never binds below the 15000 ceiling
    ensures r.employerEps == r.applicableBasic * EpsShare
    ensures r.employerEpf + r.employerEps == r.applicableBasic * (employerPct / 100.0)
    ensures r.employeeEpf == r.applicableBasic * (employeePct / 100.0)
    ensures r.vpf == basic * (vpfPct / 100.0)
    ensures r.totalMonthly == r.employeeEpf + r.employerEpf + r.vpf
    ensures r.annualContribution == r.totalMonthly * 12.0
    ensures r.totalContributions == r.totalMonthly * MonthsIn(years) as real + balance
    ensures r.interestEarned == r.maturity - r.totalContributions
    // a positive rate over a real horizon is the month-by-month simulation
    ensures MonthlyRate(interestRate) > 0.0 && years >= 0 ==>
              r.maturity == Grow(balance, r.totalMonthly, MonthlyRate(interestRate), MonthsIn(years))
    // otherwise nothing is earned
    ensures MonthlyRate(interestRate) <= 0.0 ==> r.interestEarned == 0.0
  {
    var applicable := Min(basic, EpfWageCeiling);
    var employee := applicable * (employeePct / 100.0);
    var eps := Min(applicable * EpsShare, EpsCap);
    var employer := applicable * (employerPct / 100.0) - eps;
    var vpf := basic * (vpfPct / 100.0);
    var total := employee + employer + vpf;
    var months := MonthsIn(years);
    var mr := MonthlyRate(interestRate);
    var maturity :=
      if mr > 0.0 then
        EpfClosedFormIsGrow(balance, total, mr, months);
        DueFutureValue(balance, total, mr, PowZ(1.0 + mr, months))
      else balance + total * months as real;
    var contributions := total * months as real + balance;
    EpfReport(applicable, employee, employer, eps, vpf, total, total * 12.0,
              maturity, contributions, maturity - contributions)
  }

  /** Over a non-negative number of months the source's closed form is the
      simulation. */
  lemma EpfClosedFormIsGrow(balance: real, total: real, mr: real, months: int)
    requires mr > 0.0
    ensures months >= 0 ==>
              DueFutureValue(balance, total, mr, PowZ(1.0 + mr, months)) == Grow(balance, total, mr, months)
  {
    if months >= 0 {
      DueFutureValueIsGrow(balance, total, mr, months);
    }
  }

  /** With a positive rate, a non-negative opening balance and positive
      contributions, EPF always earns interest. */
  lemma EpfEarnsInterest(basic: real, employeePct: real, employerPct: real, vpfPct: real,
                         balance: real, years: int, interestRate: real)
    requires interestRate > 0.0 && years >= 1 && balance >= 0.0
    requires EpfVpf(basic, employeePct, employerPct, vpfPct, balance, years, interestRate).totalMonthly > 0.0
    ensures EpfVpf(basic, employeePct, employerPct, vpfPct, balance, years, interestRate).interestEarned > 0.0
  {
    var r := EpfVpf(basic, employeePct, employerPct, vpfPct, balance, years, interestRate);
    GrowExceedsContributions(balance, r.totalMonthly, MonthlyRate(interestRate), MonthsIn(years));
  }

  /** At a zero rate the closed form is replaced by plain summation, which is
      what the simulation gives too. */
  lemma EpfZeroRateIsSimulation(basic: real, employeePct: real, employerPct: real, vpfPct: real,
                                balance: real, years: nat)
    ensures var r := EpfVpf(basic, employeePct, employerPct, vpfPct, balance, years, 0.0);
            r.maturity == Grow(balance, r.totalMonthly, 0.0, MonthsIn(years))
  {
    var r := EpfVpf(basic, employeePct, employerPct, vpfPct, balance, years, 0.0);
    GrowZeroRate(balance, r.totalMonthly, MonthsIn(years));
  }

  // ---------------------------------------------------------------- retirement corpus

  const PreRetirementMonthlyRate: real := 0.01

  datatype RetirementReport = RetirementReport(
    yearsToRetirement: nat,
    yearsInRetirement: nat,
    futureMonthlyExpenses: real,
    futureAnnualExpenses: real,
    corpusNeeded: real,
    monthlySipNeeded: real)

  /** The corpus a retirement of `n` years needs to pay `annual` at each year
      end, at yearly return rate `r` (present value of the withdrawals, or
      the plain sum when the rate is not positive). */
  function CorpusFor(annual: real, r: real, n: nat): (c: real)
    requires n >= 1
    ensures r >= 0.0 ==> Outstanding(c, r, annual, n) == 0.0
    ensures r <= 0.0 ==> c == annual * n as real
  {
    if r > 0.0 then
      PowAboveOne(1.0 + r, n);
      var x := Pow(1.0 + r, n);
      var c := AnnuityPresentValue(annual, r, x);
      PresentValueIsLoanFormula(annual, r, x);
      EmiPositiveRate(c, r, n);
      c
    else if r == 0.0 then
      LinearCorpusExhausted(annual, n);
      annual * n as real
    else annual * n as real
  }

  /** At a zero return, n withdrawals of `annual` exhaust n × annual. */
  lemma LinearCorpusExhausted(annual: real, n: nat)
    ensures Outstanding(annual * n as real, 0.0, annual, n) == 0.0
  {
    OutstandingAsOrdinary(annual * n as real, 0.0, annual, n);
    GrowOrdinaryZeroRate(annual * n as real, -annual, n);
  }

  /** The retirement corpus: expenses inflated to the retirement year, a
      corpus that funds them for the years of retirement, and the SIP at 1%
      a month (12% a year) that builds it by retirement. */
  function RetirementCorpus(currentAge: int, retirementAge: int, monthlyExpenses: real,
                            inflation: real, postReturn: real, lifeExpectancy: int): (r: Result<RetirementReport>)
    ensures retirementAge <= currentAge ==> r == Err(AlreadyRetired)
    ensures retirementAge > currentAge && lifeExpectancy <= retirementAge ==>
              r == Err(LifeExpectancyNotAfterRetirement)
    ensures r.Ok? <==> currentAge < retirementAge < lifeExpectancy
    ensures r.Ok? ==>
      var g := r.value;
      && g.yearsToRetirement == retirementAge - currentAge
      && g.yearsInRetirement == lifeExpectancy - retirementAge
      && g.futureAnnualExpenses == g.futureMonthlyExpenses * 12.0
      // today's expenses grown by inflation over the years to retirement
      && g.futureMonthlyExpenses
         == monthlyExpenses * Pow(1.0 + inflation / 100.0, g.yearsToRetirement)
      // a non-negative return: the corpus is exhausted exactly by the last withdrawal
      && (postReturn >= 0.0 ==>
            Outstanding(g.corpusNeeded, postReturn / 100.0, g.futureAnnualExpenses,
                        g.yearsInRetirement) == 0.0)
      // a non-positive return: the withdrawals are simply added up
      && (postReturn <= 0.0 ==> g.corpusNeeded == g.futureAnnualExpenses * g.yearsInRetirement as real)
      // the SIP, paid at month starts at 1% a month, grows into the corpus
      && Grow(0.0, g.monthlySipNeeded, PreRetirementMonthlyRate, g.yearsToRetirement * 12)
         == g.corpusNeeded
      && (g.corpusNeeded > 0.0 ==> g.monthlySipNeeded > 0.0)
  {
    var yearsTo := retirementAge - currentAge;
    var yearsIn := lifeExpectancy - retirementAge;
    if yearsTo <= 0 then Err(AlreadyRetired)
    else if yearsIn <= 0 then Err(LifeExpectancyNotAfterRetirement)
    else
      var futureMonthly := monthlyExpenses * Pow(1.0 + inflation / 100.0, yearsTo);
      var futureAnnual := futureMonthly * 12.0;
      var corpus := CorpusFor(futureAnnual, postReturn / 100.0, yearsIn);
      var sip := AnnuityDuePayment(corpus, PreRetirementMonthlyRate, yearsTo * 12);
      Ok(RetirementReport(yearsTo, yearsIn, futureMonthly, futureAnnual, corpus, sip))
  }

  /** Positive expenses and a non-negative return need a positive corpus
      and a positive SIP. */
  lemma RetirementNeedsSaving(currentAge: int, retirementAge: int, monthlyExpenses: real,
                              inflation: real, postReturn: real, lifeExpectancy: int)
    requires currentAge < retirementAge < lifeExpectancy
    requires monthlyExpenses > 0.0 && inflation > -100.0 && postReturn >= 0.0
    ensures var g := RetirementCorpus(currentAge, retirementAge, monthlyExpenses, inflation,
                                      postReturn, lifeExpectancy).value;
            g.corpusNeeded > 0.0 && g.monthlySipNeeded > 0.0
  {
    var g := RetirementCorpus(currentAge, retirementAge, monthlyExpenses, inflation,
                              postReturn, lifeExpectancy).value;
    PowPositive(1.0 + inflation / 100.0, g.yearsToRetirement);
    CorpusPositive(g.futureAnnualExpenses, postReturn / 100.0, g.yearsInRetirement);
  }

  /** Funding positive withdrawals takes a positive corpus. */
  lemma CorpusPositive(annual: real, r: real, n: nat)
    requires annual > 0.0 && r >= 0.0 && n >= 1
    ensures CorpusFor(annual, r, n) > 0.0
  {
    if r > 0.0 {
      PowAboveOne(1.0 + r, n);
      PresentValueIsLoanFormula(annual, r, Pow(1.0 + r, n));
    }
  }
}
