/** Home affordability: the buy-versus-rent comparison
    (`calculate_buy_vs_rent`) and the FOIR-based loan eligibility
    (`calculate_affordable_emi`). FOIR, the fixed-obligation-to-income ratio,
    is the share of monthly income a lender lets all EMIs take together. */
module Affordability {
  import opened Common
  import opened Compounding

  // ---------------------------------------------------------------- rent

  /** Where the rent loop stands: rent paid so far and the current monthly rent. */
  datatype RentOutcome = RentOutcome(totalPaid: real, finalRent: real)

  /** The monthly rent after one yearly increase of rate `q`. */
  function RaiseRent(rent: real, q: real): real
  {
    rent * (1.0 + q)
  }

  /** `n` years of renting: each year pays twelve months of the current rent,
      then the rent rises. */
  function RentAfter(total: real, rent: real, q: real, n: nat): (o: RentOutcome)
    decreases n
  {
    if n == 0 then RentOutcome(total, rent)
    else RentAfter(total + rent * 12.0, RaiseRent(rent, q), q, n - 1)
  }

  /** The loop's closed forms: the rent grows geometrically, and the rent paid
      is twelve months of a geometric series,
      q·paid = q·total + 12·rent·((1+q)^n - 1). */
  lemma RentClosedForm(total: real, rent: real, q: real, n: nat)
    ensures RentAfter(total, rent, q, n).finalRent == rent * Pow(1.0 + q, n)
    ensures q * RentAfter(total, rent, q, n).totalPaid
            == q * total + 12.0 * rent * (Pow(1.0 + q, n) - 1.0)
  {
    RentFinal(total, rent, q, n);
    RentPaid(total, rent, q, n);
  }

  lemma {:induction false} RentFinal(total: real, rent: real, q: real, n: nat)
    ensures RentAfter(total, rent, q, n).finalRent == rent * Pow(1.0 + q, n)
    decreases n
  {
    if n > 0 {
      RentFinal(total + rent * 12.0, RaiseRent(rent, q), q, n - 1);
      assert RaiseRent(rent, q) * Pow(1.0 + q, n - 1) == rent * ((1.0 + q) * Pow(1.0 + q, n - 1));
    }
  }

  lemma {:induction false} RentPaid(total: real, rent: real, q: real, n: nat)
    ensures q * RentAfter(total, rent, q, n).totalPaid
            == q * total + 12.0 * rent * (Pow(1.0 + q, n) - 1.0)
    decreases n
  {
    if n > 0 {
      var next := RaiseRent(rent, q);
      RentPaid(total + rent * 12.0, next, q, n - 1);
      assert RentAfter(total, rent, q, n) == RentAfter(total + rent * 12.0, next, q, n - 1);
      RentStep(q, total, rent, next, Pow(1.0 + q, n - 1), Pow(1.0 + q, n), RentAfter(total, rent, q, n).totalPaid);
    }
  }

  /** One year of the geometric series: the year's twelve payments plus the
      series from the raised rent. */
  lemma RentStep(q: real, t: real, c: real, next: real, xp: real, x: real, paid: real)
    requires next == c * (1.0 + q) && x == (1.0 + q) * xp
    requires q * paid == q * (t + c * 12.0) + 12.0 * next * (xp - 1.0)
    ensures q * paid == q * t + 12.0 * c * (x - 1.0)
  {
  }

  /** Without increases the rent paid is twelve months a year at the same rent. */
  lemma {:induction false} RentFlat(total: real, rent: real, n: nat)
    ensures RentAfter(total, rent, 0.0, n) == RentOutcome(total + rent * 12.0 * n as real, rent)
    decreases n
  {
    if n > 0 {
      RentFlat(total + rent * 12.0, rent, n - 1);
      assert RaiseRent(rent, 0.0) == rent;
    }
  }

  /** The rent loop of the comparison, over `range(years)` from nothing paid. */
  function Renting(monthlyRent: real, rentIncrease: real, years: int): (o: RentOutcome)
    ensures var q := rentIncrease / 100.0;
            && o.finalRent == monthlyRent * Pow(1.0 + q, Iterations(years))
            && q * o.totalPaid == 12.0 * monthlyRent * (Pow(1.0 + q, Iterations(years)) - 1.0)
            && (q == 0.0 ==> o.totalPaid == monthlyRent * 12.0 * Iterations(years) as real)
  {
    var q := rentIncrease / 100.0;
    RentClosedForm(0.0, monthlyRent, q, Iterations(years));
    RentFlat(0.0, monthlyRent, Iterations(years));
    RentAfter(0.0, monthlyRent, q, Iterations(years))
  }

  // ---------------------------------------------------------------- buy vs rent

  datatype Choice = BuyProperty | KeepRenting

  datatype BuyVsRentReport = BuyVsRentReport(
    downPayment: real,
    loanAmount: real,
    monthlyEmi: real,
    totalEmiPaid: real,
    propertyValueAfter: real,
    buyCost: real,
    totalRentPaid: real,
    finalMonthlyRent: real,
    rentCost: real,
    better: Choice,
    savings: real)

  /** The loop runs `range(years)`: no iteration for a non-positive count. */
  function Iterations(years: int): nat
  {
    if years > 0 then years else 0
  }

  /** EMIs paid over the comparison horizon, counted twelve a year. */
  function EmiPaidOver(emi: real, years: int): real
  {
    emi * 12.0 * years as real
  }

  /** Buying costs the down payment and the EMIs of the comparison period
      less the property's appreciation; renting costs the rent paid. A zero
      tenure divides by zero in the EMI, and so does a property that loses
      all its value over a negative period. */
  function BuyVsRent(propertyValue: real, monthlyRent: real, downPaymentPct: real,
                     tenureYears: int, interestRate: real, rentIncrease: real,
                     appreciation: real, years: int): (r: Result<BuyVsRentReport>)
    ensures tenureYears == 0 ==> r == Err(ZeroDivision)
    ensures tenureYears != 0 && years < 0 && appreciation == -100.0 ==> r == Err(ZeroDivision)
    ensures r.Ok? <==> tenureYears != 0 && (years >= 0 || appreciation != -100.0)
    ensures r.Ok? ==>
      var g := r.value;
      var mr := MonthlyRate(interestRate);
      && g.downPayment == propertyValue * (downPaymentPct / 100.0)
      && g.downPayment + g.loanAmount == propertyValue
      && g.monthlyEmi == Emi(g.loanAmount, mr, tenureYears * 12)
      // a non-negative rate over a real tenure pays the loan off exactly
      && (mr >= 0.0 && tenureYears >= 1 ==>
            Outstanding(g.loanAmount, mr, g.monthlyEmi, tenureYears * 12) == 0.0)
      && g.totalEmiPaid == EmiPaidOver(g.monthlyEmi, years)
      && (years >= 0 ==> g.propertyValueAfter == propertyValue * Pow(1.0 + appreciation / 100.0, years))
      // a negative horizon discounts: growing back over -years years restores the price
      && (years < 0 ==>
            g.propertyValueAfter * Pow(1.0 + appreciation / 100.0, -years) == propertyValue)
      && g.buyCost == g.downPayment + g.totalEmiPaid - (g.propertyValueAfter - propertyValue)
      && RentOutcome(g.totalRentPaid, g.finalMonthlyRent) == Renting(monthlyRent, rentIncrease, years)
      && g.rentCost == g.totalRentPaid
      // buying wins only when strictly cheaper
      && (g.better == BuyProperty <==> g.buyCost < g.rentCost)
      && g.savings == Abs(g.buyCost - g.rentCost)
  {
    if tenureYears == 0 then Err(ZeroDivision)
    else if years < 0 && appreciation == -100.0 then Err(ZeroDivision)
    else
      var down := propertyValue * (downPaymentPct / 100.0);
      var loan := propertyValue - down;
      var emi := Emi(loan, MonthlyRate(interestRate), tenureYears * 12);
      var totalEmi := EmiPaidOver(emi, years);
      var future := Appreciated(propertyValue, appreciation, years);
      var rent := Renting(monthlyRent, rentIncrease, years);
      var buyCost := down + totalEmi - (future - propertyValue);
      var rentCost := rent.totalPaid;
      Ok(BuyVsRentReport(down, loan, emi, totalEmi, future, buyCost, rent.totalPaid, rent.finalRent,
                         rentCost, if buyCost < rentCost then BuyProperty else KeepRenting,
                         Abs(buyCost - rentCost)))
  }

  /** The property's value after `years` years of compound appreciation; a
      negative period discounts the price instead. */
  function Appreciated(value: real, appreciation: real, years: int): (f: real)
    requires years >= 0 || appreciation != -100.0
    ensures years >= 0 ==> f == value * Pow(1.0 + appreciation / 100.0, years)
    ensures years < 0 ==> f * Pow(1.0 + appreciation / 100.0, -years) == value
  {
    if years < 0 then
      var z := PowZ(1.0 + appreciation / 100.0, years);
      GrowBack(value, z, Pow(1.0 + appreciation / 100.0, -years));
      value * z
    else value * Pow(1.0 + appreciation / 100.0, years)
  }

  /** Growing a discounted value back over the same number of years restores it. */
  lemma GrowBack(v: real, z: real, p: real)
    requires z * p == 1.0
    ensures (v * z) * p == v
  {
    calc {
      (v * z) * p;
      v * (z * p);
      v;
    }
  }

  // ---------------------------------------------------------------- affordable EMI

  /** The loan eligibility assumes 8.5% a year over 20 years. */
  const EligibilityRate: real := 8.5
  const EligibilityYears: int := 20
  const EligibilityMonths: nat := 240

  datatype Leverage = OverLeveraged | Tight | Comfortable

  datatype AffordabilityReport = AffordabilityReport(
    maxTotalEmi: real,
    availableForHomeEmi: real,
    loanEligibility: real,
    status: Leverage)

  /** The room FOIR leaves for a home-loan EMI, and the loan that EMI buys at
      monthly rate `r` over `n` months. */
  function AffordableEmiAt(income: real, existing: real, foir: real, r: real, n: nat): (a: AffordabilityReport)
    requires r > 0.0 && n >= 1
    ensures a.maxTotalEmi == income * (foir / 100.0)
    // the room left is clamped at zero
    ensures a.availableForHomeEmi == Max(0.0, a.maxTotalEmi - existing)
    ensures a.status == OverLeveraged <==> a.maxTotalEmi - existing < 0.0
    ensures a.status == Tight <==> 0.0 <= a.maxTotalEmi - existing < income * 0.30
    ensures a.status == Comfortable <==> 0.0 <= a.maxTotalEmi - existing && income * 0.30 <= a.maxTotalEmi - existing
    // the eligible loan is the one whose EMI takes exactly the room left
    ensures Emi(a.loanEligibility, r, n) == a.availableForHomeEmi
    ensures a.loanEligibility > 0.0 <==> a.availableForHomeEmi > 0.0
    ensures a.loanEligibility >= 0.0
  {
    var maxFoir := income * (foir / 100.0);
    var room := maxFoir - existing;
    var available := if room < 0.0 then 0.0 else room;
    var status := if room < 0.0 then OverLeveraged
                  else if room < income * 0.30 then Tight
                  else Comfortable;
    AffordabilityReport(maxFoir, available, EligibleLoan(available, r, n), status)
  }

  /** The source's fixed terms: 8.5% a year over 240 months. */
  function AffordableEmi(income: real, existing: real, foir: real): (a: AffordabilityReport)
    ensures a.availableForHomeEmi == Max(0.0, income * (foir / 100.0) - existing)
    ensures a.status == OverLeveraged <==> income * (foir / 100.0) - existing < 0.0
    ensures a.loanEligibility > 0.0 <==> a.availableForHomeEmi > 0.0
  {
    AffordableEmiAt(income, existing, foir, MonthlyRate(EligibilityRate), EligibilityMonths)
  }

  /** The loan whose instalment at monthly rate `r` over `n` months is
      `available`, or no loan when there is no room. */
  function EligibleLoan(available: real, r: real, n: nat): (loan: real)
    requires r > 0.0 && n >= 1 && available >= 0.0
    ensures Emi(loan, r, n) == available
    ensures loan > 0.0 <==> available > 0.0
    ensures loan >= 0.0
  {
    if available > 0.0 then LoanForEmi(available, r, n)
    else
      ZeroLoanNoEmi(r, n);
      0.0
  }

  /** Nothing borrowed, nothing repaid. */
  lemma ZeroLoanNoEmi(r: real, n: nat)
    requires r > 0.0 && n >= 1
    ensures Emi(0.0, r, n) == 0.0
  {
    EmiPositiveRate(0.0, r, n);
    var x := Pow(1.0 + r, n);
    assert x - 1.0 > 0.0;
    assert 0.0 * r * x == 0.0;
    ZeroOver(x - 1.0);
  }

  /** Feeding the eligible loan back into the buy-versus-rent EMI, with no
      down payment at the same rate and tenure, gives back the EMI room. */
  lemma EligibilityRoundTrip(income: real, existing: real, foir: real, rate: real, tenureYears: int,
                             monthlyRent: real, rentIncrease: real, appreciation: real, years: nat)
    requires MonthlyRate(rate) > 0.0 && tenureYears >= 1
    ensures var a := AffordableEmiAt(income, existing, foir, MonthlyRate(rate), tenureYears * 12);
            var b := BuyVsRent(a.loanEligibility, monthlyRent, 0.0, tenureYears, rate,
                               rentIncrease, appreciation, years);
            b.Ok? && b.value.loanAmount == a.loanEligibility
            && b.value.monthlyEmi == a.availableForHomeEmi
  {
  }

  lemma ZeroOver(d: real)
    requires d != 0.0
    ensures 0.0 / d == 0.0
  {
    assert (0.0 / d) * d == 0.0;
  }

  /** More existing EMIs never raise the loan eligibility. */
  lemma EligibilityFallsWithDebt(income: real, existing: real, more: real, foir: real, r: real, n: nat)
    requires r > 0.0 && n >= 1
    requires existing <= more
    ensures AffordableEmiAt(income, more, foir, r, n).loanEligibility
            <= AffordableEmiAt(income, existing, foir, r, n).loanEligibility
  {
    var a := AffordableEmiAt(income, existing, foir, r, n);
    var b := AffordableEmiAt(income, more, foir, r, n);
    if b.availableForHomeEmi > 0.0 {
      EmiPositiveRate(a.loanEligibility, r, n);
      EmiPositiveRate(b.loanEligibility, r, n);
      EmiFormulaMonotone(b.loanEligibility, a.loanEligibility, r, Pow(1.0 + r, n));
    }
  }

  /** The instalment rises with the loan, so a smaller EMI means a smaller loan. */
  lemma EmiFormulaMonotone(small: real, large: real, r: real, x: real)
    requires r > 0.0 && x > 1.0
    requires EmiFormula(small, r, x) <= EmiFormula(large, r, x)
    ensures small <= large
  {
    var k := r * x / (x - 1.0);
    assert k > 0.0;
    assert EmiFormula(small, r, x) == small * k;
    assert EmiFormula(large, r, x) == large * k;
  }
}
