/** Goal planning (`calculate_sip_for_goal`, `calculate_goal_corpus` and their
    helpers): a target stated in today's money is inflated to the goal year,
    what existing savings will grow to is subtracted, and the level monthly
    SIP that reaches the rest is found by inverting the ordinary-annuity
    future value FV = P·((1+r)^n − 1)/r. */
module Goals {
  import opened Common
  import opened Compounding
  import opened Sip

  /** `amount` compounded yearly at `ratePercent` for `years` years; used both
      to inflate a target and to grow an existing corpus. */
  function Inflate(amount: real, ratePercent: real, years: nat): real
  {
    amount * Pow(1.0 + ratePercent / 100.0, years)
  }

  /** Discounting undoes inflating: the future amount brought back at the
      same rate is today's amount. */
  lemma DiscountInflate(amount: real, ratePercent: real, years: nat)
    requires ratePercent > -100.0
    ensures Discount(Inflate(amount, ratePercent, years), ratePercent, years) == amount
  {
    var x := Pow(1.0 + ratePercent / 100.0, years);
    PowPositive(1.0 + ratePercent / 100.0, years);
    var d := Discount(Inflate(amount, ratePercent, years), ratePercent, years);
    assert x * d == x * amount;
    CancelFactor(x, d, amount);
  }

  /** Inflating undoes discounting: the amount set aside today grows back
      into the future amount. */
  lemma InflateDiscount(amount: real, ratePercent: real, years: nat)
    requires ratePercent > -100.0
    ensures Inflate(Discount(amount, ratePercent, years), ratePercent, years) == amount
  {
  }

  /** A larger amount grows into a larger amount. */
  lemma InflateMonotone(a: real, b: real, ratePercent: real, years: nat)
    requires a <= b && ratePercent > -100.0
    ensures Inflate(a, ratePercent, years) <= Inflate(b, ratePercent, years)
  {
    var x := Pow(1.0 + ratePercent / 100.0, years);
    PowPositive(1.0 + ratePercent / 100.0, years);
    assert b * x - a * x == (b - a) * x;
  }

  /** A non-negative rate never shrinks a non-negative amount. */
  lemma InflateGrows(amount: real, ratePercent: real, years: nat)
    requires amount >= 0.0 && ratePercent >= 0.0
    ensures Inflate(amount, ratePercent, years) >= amount
  {
    PowAtLeastOne(1.0 + ratePercent / 100.0, years);
    assert amount * Pow(1.0 + ratePercent / 100.0, years) - amount
           == amount * (Pow(1.0 + ratePercent / 100.0, years) - 1.0);
  }

  /** The first instalment of the alternative step-up plan: 70% of the level SIP. */
  function StepUpStart(sip: real): real
  {
    sip * 0.7
  }

  const GoalStepUpPercent: real := 10.0

  // ---------------------------------------------------------------- SIP for a goal

  /** The horizon band of `_get_common_goal_examples`. */
  datatype GoalHorizon = ShortHorizon | MediumHorizon | LongHorizon

  function CommonGoalExamples(years: int): (h: GoalHorizon)
    ensures h == ShortHorizon <==> years <= 5
    ensures h == MediumHorizon <==> 5 < years <= 10
    ensures h == LongHorizon <==> years > 10
  {
    if years <= 5 then ShortHorizon
    else if years <= 10 then MediumHorizon
    else LongHorizon
  }

  datatype GoalSipReport = GoalSipReport(
    futureValueNeeded: real,
    monthlySipNeeded: real,
    totalInvestment: real,
    totalReturns: real,
    stepUpStartingSip: real,
    stepUpFinalMonthlySip: Option<real>,
    commonGoals: GoalHorizon)

  /** The validation shared by the as-written and the corrected SIP-for-goal. */
  function GoalSipValidation(target: real, years: int, expectedReturn: real,
                             inflation: real): (e: Option<Error>)
    ensures e == None <==> target > 0.0 && 1 <= years <= 50 && 0.0 < expectedReturn <= 50.0
                           && 0.0 <= inflation <= 20.0
    ensures target <= 0.0 ==> e == Some(NonPositiveGoal)
    ensures target > 0.0 && (years <= 0 || years > 50) ==> e == Some(YearsOutOfRange)
    ensures (target > 0.0 && 1 <= years <= 50 && (expectedReturn <= 0.0 || expectedReturn > 50.0))
            ==> e == Some(ReturnOutOfRange)
    ensures (target > 0.0 && 1 <= years <= 50 && 0.0 < expectedReturn <= 50.0
             && (inflation < 0.0 || inflation > 20.0)) ==> e == Some(InflationOutOfRange)
  {
    if target <= 0.0 then Some(NonPositiveGoal)
    else if years <= 0 || years > 50 then Some(YearsOutOfRange)
    else if expectedReturn <= 0.0 || expectedReturn > 50.0 then Some(ReturnOutOfRange)
    else if inflation < 0.0 || inflation > 20.0 then Some(InflationOutOfRange)
    else None
  }

  /** The source as written: after validation it builds its result with
      `self._get_common_goal_examples(years)` in a module-level function,
      where `self` is unbound, so every valid call raises NameError. */
  function SipForGoalAsWritten(target: real, years: int, expectedReturn: real,
                               inflation: real): (r: Result<GoalSipReport>)
    ensures GoalSipValidation(target, years, expectedReturn, inflation).Some? ==>
              r == Err(GoalSipValidation(target, years, expectedReturn, inflation).value)
    ensures GoalSipValidation(target, years, expectedReturn, inflation) == None ==>
              r == Err(UnboundSelf)
    ensures !r.Ok?
  {
    match GoalSipValidation(target, years, expectedReturn, inflation)
    case Some(e) => Err(e)
    case None => Err(UnboundSelf)
  }

  /** What a monthly SIP pays in over `months` months. */
  function SipInvestment(sip: real, months: int): real
  {
    sip * months as real
  }

  /** SIP for a goal as intended: the helper called directly. The monthly SIP
      is the ordinary-annuity payment that reaches the inflated target, and
      the alternative plan starts at 70% of it with a 10% yearly step-up. */
  function SipForGoal(target: real, years: int, expectedReturn: real,
                      inflation: real): (r: Result<GoalSipReport>)
    ensures GoalSipValidation(target, years, expectedReturn, inflation).Some? ==>
              r == Err(GoalSipValidation(target, years, expectedReturn, inflation).value)
    ensures r.Ok? <==> GoalSipValidation(target, years, expectedReturn, inflation) == None
    ensures r.Ok? ==>
      var g := r.value;
      // the needed amount, discounted back at inflation, is today's target
      && Discount(g.futureValueNeeded, inflation, years) == target
      && g.futureValueNeeded >= target
      // paying the SIP at each month end for 12 × years months reaches it exactly
      && GrowOrdinary(0.0, g.monthlySipNeeded, MonthlyRate(expectedReturn), 12 * years)
         == g.futureValueNeeded
      && g.monthlySipNeeded > 0.0
      // what the SIP pays in over the horizon, and what the market adds
      && g.totalInvestment == SipInvestment(g.monthlySipNeeded, 12 * years)
      && g.totalReturns == g.futureValueNeeded - g.totalInvestment
      && g.stepUpStartingSip == StepUpStart(g.monthlySipNeeded)
      && g.stepUpFinalMonthlySip
         == Some(SteppedSip(g.stepUpStartingSip, GoalStepUpPercent, years - 1))
      && g.commonGoals == CommonGoalExamples(years)
  {
    match GoalSipValidation(target, years, expectedReturn, inflation)
    case Some(e) => Err(e)
    case None =>
      var fv := Inflate(target, inflation, years);
      DiscountInflate(target, inflation, years);
      InflateGrows(target, inflation, years);
      var months: nat := 12 * years;
      var sip := OrdinaryAnnuityPayment(fv, MonthlyRate(expectedReturn), months);
      var total := SipInvestment(sip, months);
      var start := StepUpStart(sip);
      var stepUp := SipReturns(start, expectedReturn, years, GoalStepUpPercent);
      var finalSip := if stepUp.Ok? then Some(stepUp.value.finalYear.monthlySip) else None;
      StepUpFinalSip(start, expectedReturn, years);
      Ok(GoalSipReport(fv, sip, total, fv - total, start, finalSip, CommonGoalExamples(years)))
  }

  /** The 10% step-up projection the goal calculators run is always accepted
      and its last year pays the starting SIP stepped up `years − 1` times. */
  lemma StepUpFinalSip(start: real, expectedReturn: real, years: int)
    requires start > 0.0 && 0.0 < expectedReturn <= 50.0 && 1 <= years <= 50
    ensures SipReturns(start, expectedReturn, years, GoalStepUpPercent).Ok?
    ensures var rep := SipReturns(start, expectedReturn, years, GoalStepUpPercent).value;
            && rep.finalYear.monthlySip == SteppedSip(start, GoalStepUpPercent, years - 1)
            && rep.maturityValue > 0.0
  {
    SipReturnsProfits(start, expectedReturn, years, GoalStepUpPercent);
  }

  /** Month-end payments over two or more months at a positive rate grow to
      more than was paid in: the goal SIP, which reaches the inflated target
      over 12 × years month ends, always has positive returns. */
  lemma OrdinaryEarns(sip: real, mr: real, months: nat, fv: real)
    requires sip > 0.0 && mr > 0.0 && months >= 2
    requires GrowOrdinary(0.0, sip, mr, months) == fv
    ensures fv > sip * months as real
  {
    assert 0.0 * (1.0 + mr) + sip == sip;
    assert GrowOrdinary(0.0, sip, mr, months) == GrowOrdinary(sip, sip, mr, months - 1);
    GrowOrdinaryExceedsContributions(sip, sip, mr, months - 1);
    assert sip + (months - 1) as real * sip == sip * months as real;
  }

  /** The goal SIP is an ordinary-annuity payment, but the SIP projection
      pays at month starts: a SIP that reaches `fv` at month ends, fed back
      into the projection with no step-up, ends one month's growth above the
      goal, at fv × (1 + r). */
  lemma FlatProjectionOvershoots(sip: real, expectedReturn: real, years: int, fv: real)
    requires sip > 0.0 && 0.0 < expectedReturn <= 50.0 && 1 <= years <= 50
    requires GrowOrdinary(0.0, sip, MonthlyRate(expectedReturn), 12 * years) == fv
    ensures SipReturns(sip, expectedReturn, years, 0.0).Ok?
    ensures SipReturns(sip, expectedReturn, years, 0.0).value.maturityValue
            == fv * (1.0 + MonthlyRate(expectedReturn))
  {
    DueIsOrdinaryGrown(sip, MonthlyRate(expectedReturn), 12 * years, fv);
    FlatMaturity(sip, expectedReturn, years, fv * (1.0 + MonthlyRate(expectedReturn)));
  }

  lemma DueIsOrdinaryGrown(sip: real, mr: real, months: nat, fv: real)
    requires GrowOrdinary(0.0, sip, mr, months) == fv
    ensures Grow(0.0, sip, mr, months) == fv * (1.0 + mr)
  {
    DueOvershootsOrdinary(sip, mr, months);
    ScaleEqual(GrowOrdinary(0.0, sip, mr, months), fv, 1.0 + mr);
  }

  /** An accepted flat projection matures at the month-start annuity's value. */
  lemma FlatMaturity(sip: real, expectedReturn: real, years: int, m: real)
    requires sip > 0.0 && 0.0 < expectedReturn <= 50.0 && 1 <= years <= 50
    requires Grow(0.0, sip, MonthlyRate(expectedReturn), 12 * years) == m
    ensures SipReturns(sip, expectedReturn, years, 0.0).Ok?
    ensures SipReturns(sip, expectedReturn, years, 0.0).value.maturityValue == m
  {
    SipFlatClosedForm(sip, expectedReturn, years);
  }

  lemma ScaleEqual(a: real, b: real, c: real)
    requires a == b
    ensures a * c == b * c
  {
  }

  /** A 50 lakh goal over 15 years at 12% with 6% inflation: the corrected
      calculator answers, the source raises on the unbound `self`. */
  lemma SipForGoalCounterexample()
    ensures SipForGoalAsWritten(5000000.0, 15, 12.0, 6.0) == Err(UnboundSelf)
    ensures SipForGoal(5000000.0, 15, 12.0, 6.0).Ok?
  {
  }

  // ---------------------------------------------------------------- goal corpus

  datatype RiskCategory = LowRisk | ModerateRisk | HighRisk

  datatype Allocation = Allocation(debt: int, equity: int)

  /** The strategy band: up to 3 years low risk 70/30 debt/equity, up to 7
      moderate 40/60, beyond that aggressive 20/80. */
  function Strategy(years: int): (s: (RiskCategory, Allocation))
    ensures s.0 == LowRisk <==> years <= 3
    ensures s.0 == ModerateRisk <==> 3 < years <= 7
    ensures s.0 == HighRisk <==> years > 7
    ensures s.1.debt + s.1.equity == 100
    ensures s.1.equity == (match s.0 case LowRisk => 30 case ModerateRisk => 60 case HighRisk => 80)
  {
    if years <= 3 then (LowRisk, Allocation(70, 30))
    else if years <= 7 then (ModerateRisk, Allocation(40, 60))
    else (HighRisk, Allocation(20, 80))
  }

  /** A longer horizon never lowers the recommended equity share. */
  lemma StrategyEquityMonotone(a: int, b: int)
    requires a <= b
    ensures Strategy(a).1.equity <= Strategy(b).1.equity
  {
  }

  /** The goal name `_get_goal_template` guesses from the amount in lakhs
      and the horizon; the first matching rule wins. */
  datatype GoalKind =
    | HigherEducation
    | ChildMarriage
    | Retirement
    | HomeDownPayment
    | ShortTermGoal
    | WealthCreation

  function Lakhs(amount: real): real
  {
    amount / 100000.0
  }

  /** The amount (in lakhs) and horizon band each template covers. */
  predicate EducationBand(l: real, years: int) { 20.0 <= l <= 60.0 && years >= 10 }
  predicate MarriageBand(l: real, years: int) { 15.0 <= l <= 40.0 && years >= 8 }
  predicate RetirementBand(l: real, years: int) { l >= 100.0 && years >= 15 }
  predicate HomeBand(l: real, years: int) { 10.0 <= l <= 50.0 && years >= 5 }
  predicate ShortTermBand(l: real, years: int) { l <= 15.0 && years <= 5 }

  /** The first template whose band holds, in the source's order; wealth
      creation when none does. The retirement band overlaps no earlier one. */
  function GoalTemplate(amount: real, years: int): (k: GoalKind)
    ensures var l := Lakhs(amount);
      && (k == HigherEducation <==> EducationBand(l, years))
      && (k == ChildMarriage <==> !EducationBand(l, years) && MarriageBand(l, years))
      && (k == Retirement <==> RetirementBand(l, years))
      && (k == HomeDownPayment <==>
            !EducationBand(l, years) && !MarriageBand(l, years) && !RetirementBand(l, years)
            && HomeBand(l, years))
      && (k == ShortTermGoal <==>
            !EducationBand(l, years) && !MarriageBand(l, years) && !RetirementBand(l, years)
            && !HomeBand(l, years) && ShortTermBand(l, years))
      && (k == WealthCreation <==>
            !EducationBand(l, years) && !MarriageBand(l, years) && !RetirementBand(l, years)
            && !HomeBand(l, years) && !ShortTermBand(l, years))
  {
    var l := Lakhs(amount);
    if 20.0 <= l <= 60.0 && years >= 10 then HigherEducation
    else if 15.0 <= l <= 40.0 && years >= 8 then ChildMarriage
    else if l >= 100.0 && years >= 15 then Retirement
    else if 10.0 <= l <= 50.0 && years >= 5 then HomeDownPayment
    else if l <= 15.0 && years <= 5 then ShortTermGoal
    else WealthCreation
  }

  /** 12 lakh over 6 years is a home down payment, not wealth creation. */
  lemma HomeTemplateExample()
    ensures GoalTemplate(1200000.0, 6) == HomeDownPayment
  {
  }

  /** Because education is tested first, a marriage template is only ever
      chosen for 15–20 lakh or for an 8–9 year horizon. */
  lemma MarriageTemplateReach(amount: real, years: int)
    requires GoalTemplate(amount, years) == ChildMarriage
    ensures Lakhs(amount) < 20.0 || years < 10
  {
  }

  /** The alert attached when an existing corpus was declared. */
  datatype CorpusAlert =
    | NoAlert
    | ShortfallAlert(existingWillGrowTo: real, additionalNeeded: real)
    | SurplusAlert(existingWillGrowTo: real, surplus: real)

  datatype GoalCorpusReport = GoalCorpusReport(
    kind: GoalKind,
    futureValueNeeded: real,
    futureValueOfExisting: real,
    remainingNeeded: real,
    monthlySip: real,
    totalSipInvestment: real,
    sipReturns: real,
    lumpSumToday: real,
    stepUpStartingSip: real,
    stepUpFinalMonthlySip: real,
    risk: RiskCategory,
    allocation: Allocation,
    alert: CorpusAlert)

  /** The part of the inflated goal that the grown existing corpus leaves
      uncovered, floored at zero. */
  function Remaining(fvNeeded: real, fvExisting: real): (rem: real)
    ensures rem >= 0.0 && rem >= fvNeeded - fvExisting
    ensures rem == 0.0 <==> fvExisting >= fvNeeded
    ensures rem > 0.0 ==> fvExisting + rem == fvNeeded
  {
    Max(0.0, fvNeeded - fvExisting)
  }

  function GoalCorpus(goal: real, years: int, inflation: real, expectedReturn: real,
                      existing: real): (r: Result<GoalCorpusReport>)
    // validation, in the order the checks are made
    ensures goal <= 0.0 ==> r == Err(NonPositiveGoal)
    ensures goal > 0.0 && (years <= 0 || years > 50) ==> r == Err(YearsOutOfRange)
    ensures (goal > 0.0 && 1 <= years <= 50 && (inflation < 0.0 || inflation > 20.0))
            ==> r == Err(InflationOutOfRange)
    ensures (goal > 0.0 && 1 <= years <= 50 && 0.0 <= inflation <= 20.0
             && (expectedReturn <= 0.0 || expectedReturn > 50.0)) ==> r == Err(ReturnOutOfRange)
    ensures (goal > 0.0 && 1 <= years <= 50 && 0.0 <= inflation <= 20.0
             && 0.0 < expectedReturn <= 50.0 && existing < 0.0) ==> r == Err(NegativeExistingCorpus)
    ensures r.Ok? <==> goal > 0.0 && 1 <= years <= 50 && 0.0 <= inflation <= 20.0
                       && 0.0 < expectedReturn <= 50.0 && existing >= 0.0
    ensures r.Ok? ==>
      var g := r.value;
      var mr := MonthlyRate(expectedReturn);
      && Discount(g.futureValueNeeded, inflation, years) == goal
      && Discount(g.futureValueOfExisting, expectedReturn, years) == existing
      && g.remainingNeeded == Remaining(g.futureValueNeeded, g.futureValueOfExisting)
      // a SIP is needed exactly when the existing corpus falls short
      && (g.monthlySip > 0.0 <==> g.remainingNeeded > 0.0)
      && (g.monthlySip == 0.0 <==> g.remainingNeeded == 0.0)
      && GrowOrdinary(0.0, g.monthlySip, mr, 12 * years) == g.remainingNeeded
      && g.totalSipInvestment == SipInvestment(g.monthlySip, 12 * years)
      && g.sipReturns == g.remainingNeeded - g.totalSipInvestment
      // the lump sum invested today grows yearly into the remaining amount
      && Inflate(g.lumpSumToday, expectedReturn, years) == g.remainingNeeded
      && g.stepUpStartingSip == StepUpStart(g.monthlySip)
      && (g.monthlySip > 0.0 ==>
            g.stepUpFinalMonthlySip == SteppedSip(g.stepUpStartingSip, GoalStepUpPercent, years - 1))
      && (g.monthlySip == 0.0 ==> g.stepUpFinalMonthlySip == 0.0)
      && (g.risk, g.allocation) == Strategy(years)
      && g.kind == GoalTemplate(goal, years)
      // alerts: only with a declared corpus, shortfall and surplus exclusive
      && (existing == 0.0 ==> g.alert == NoAlert)
      && (g.alert.ShortfallAlert? <==> existing > 0.0 && g.remainingNeeded > 0.0)
      && (g.alert.SurplusAlert? <==> existing > 0.0 && g.remainingNeeded == 0.0)
      && (g.alert.ShortfallAlert? ==> g.alert.additionalNeeded == g.remainingNeeded)
      && (g.alert.SurplusAlert? ==>
            g.alert.surplus >= 0.0
            && g.alert.surplus == g.futureValueOfExisting - g.futureValueNeeded)
      // both alerts report what the existing corpus will grow to
      && (g.alert.ShortfallAlert? || g.alert.SurplusAlert? ==>
            g.alert.existingWillGrowTo == g.futureValueOfExisting)
  {
    if goal <= 0.0 then Err(NonPositiveGoal)
    else if years <= 0 || years > 50 then Err(YearsOutOfRange)
    else if inflation < 0.0 || inflation > 20.0 then Err(InflationOutOfRange)
    else if expectedReturn <= 0.0 || expectedReturn > 50.0 then Err(ReturnOutOfRange)
    else if existing < 0.0 then Err(NegativeExistingCorpus)
    else
      var fv := Inflate(goal, inflation, years);
      var fvExisting := Inflate(existing, expectedReturn, years);
      DiscountInflate(goal, inflation, years);
      DiscountInflate(existing, expectedReturn, years);
      var remaining := Remaining(fv, fvExisting);
      InflateDiscount(remaining, expectedReturn, years);
      var plan := SipPlan(remaining, expectedReturn, years);
      var stepUp := StepUpPlan(plan.0, expectedReturn, years);
      Ok(GoalCorpusReport(GoalTemplate(goal, years), fv, fvExisting, remaining, plan.0, plan.1,
                          plan.2, Discount(remaining, expectedReturn, years), stepUp.0, stepUp.1,
                          Strategy(years).0, Strategy(years).1, AlertFor(existing, fvExisting, fv)))
  }

  /** Option 1 of the corpus plan: the monthly SIP that reaches `remaining`,
      the total it pays in and the returns it earns; all zero when nothing
      remains to be saved. */
  function SipPlan(remaining: real, expectedReturn: real, years: int): (p: (real, real, real))
    requires remaining >= 0.0 && 0.0 < expectedReturn <= 50.0 && 1 <= years <= 50
    ensures p.0 > 0.0 <==> remaining > 0.0
    ensures p.0 == 0.0 <==> remaining == 0.0
    ensures GrowOrdinary(0.0, p.0, MonthlyRate(expectedReturn), 12 * years) == remaining
    ensures p.1 == SipInvestment(p.0, 12 * years)
    ensures p.2 == remaining - p.1
  {
    var months: nat := 12 * years;
    if remaining > 0.0 then
      var sip := OrdinaryAnnuityPayment(remaining, MonthlyRate(expectedReturn), months);
      (sip, SipInvestment(sip, months), remaining - SipInvestment(sip, months))
    else
      GrowOrdinaryFromNothing(MonthlyRate(expectedReturn), months);
      (0.0, 0.0, 0.0)
  }

  /** Option 2 of the corpus plan: the step-up SIP's starting and final
      instalments, both zero when no SIP is needed. */
  function StepUpPlan(sip: real, expectedReturn: real, years: int): (p: (real, real))
    requires sip >= 0.0 && 0.0 < expectedReturn <= 50.0 && 1 <= years <= 50
    ensures p.0 == StepUpStart(sip)
    ensures sip > 0.0 ==> p.1 == SteppedSip(p.0, GoalStepUpPercent, years - 1)
    ensures sip == 0.0 ==> p.1 == 0.0
  {
    if sip > 0.0 then
      var start := StepUpStart(sip);
      (start, StepUpFinal(start, expectedReturn, years))
    else (0.0, 0.0)
  }

  /** The shortfall or surplus alert for a declared existing corpus. */
  function AlertFor(existing: real, fvExisting: real, fv: real): (a: CorpusAlert)
    ensures existing <= 0.0 ==> a == NoAlert
    ensures a.ShortfallAlert? <==> existing > 0.0 && Remaining(fv, fvExisting) > 0.0
    ensures a.SurplusAlert? <==> existing > 0.0 && Remaining(fv, fvExisting) == 0.0
    ensures a.ShortfallAlert? ==> a.additionalNeeded == Remaining(fv, fvExisting)
    ensures a.SurplusAlert? ==> a.surplus >= 0.0 && a.surplus == fvExisting - fv
    ensures a.ShortfallAlert? || a.SurplusAlert? ==> a.existingWillGrowTo == fvExisting
  {
    if existing > 0.0 && fvExisting < fv then ShortfallAlert(fvExisting, Remaining(fv, fvExisting))
    else if existing > 0.0 && fvExisting >= fv then SurplusAlert(fvExisting, fvExisting - fv)
    else NoAlert
  }

  /** The step-up plan's last monthly SIP, reported only when the projection
      ends with a positive value (which it always does). */
  function StepUpFinal(start: real, expectedReturn: real, years: int): (f: real)
    requires start > 0.0 && 0.0 < expectedReturn <= 50.0 && 1 <= years <= 50
    ensures f == SteppedSip(start, GoalStepUpPercent, years - 1)
  {
    StepUpFinalSip(start, expectedReturn, years);
    var p := SipReturns(start, expectedReturn, years, GoalStepUpPercent).value;
    if p.maturityValue > 0.0 then p.finalYear.monthlySip else 0.0
  }

  /** Paying nothing accumulates nothing. */
  lemma {:induction false} GrowOrdinaryFromNothing(r: real, n: nat)
    ensures GrowOrdinary(0.0, 0.0, r, n) == 0.0
    decreases n
  {
    if n > 0 {
      assert 0.0 * (1.0 + r) + 0.0 == 0.0;
      GrowOrdinaryFromNothing(r, n - 1);
    }
  }

  /** The plan covers the goal: what the existing corpus grows to plus what
      the SIP accumulates is at least the inflated goal, and exactly it when
      a SIP is needed. */
  lemma GoalCorpusCoversGoal(goal: real, years: int, inflation: real, expectedReturn: real,
                             existing: real)
    requires goal > 0.0 && 1 <= years <= 50 && 0.0 <= inflation <= 20.0
    requires 0.0 < expectedReturn <= 50.0 && existing >= 0.0
    ensures var g := GoalCorpus(goal, years, inflation, expectedReturn, existing).value;
            var sipValue := GrowOrdinary(0.0, g.monthlySip, MonthlyRate(expectedReturn), 12 * years);
            && g.futureValueOfExisting + sipValue >= g.futureValueNeeded
            && (g.monthlySip > 0.0 ==> g.futureValueOfExisting + sipValue == g.futureValueNeeded)
  {
  }

  /** More existing savings never call for a larger SIP. */
  lemma MoreCorpusNeverRaisesRemaining(goal: real, years: int, inflation: real,
                                       expectedReturn: real, e1: real, e2: real)
    requires goal > 0.0 && 1 <= years <= 50 && 0.0 <= inflation <= 20.0
    requires 0.0 < expectedReturn <= 50.0 && 0.0 <= e1 <= e2
    ensures GoalCorpus(goal, years, inflation, expectedReturn, e2).Ok?
    ensures GoalCorpus(goal, years, inflation, expectedReturn, e2).value.remainingNeeded
            <= GoalCorpus(goal, years, inflation, expectedReturn, e1).value.remainingNeeded
  {
    InflateMonotone(e1, e2, expectedReturn, years);
  }
}
