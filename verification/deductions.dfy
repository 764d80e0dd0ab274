/** Deduction and exemption caps of the Income-tax Act, 1961, as the six
    calculators compute them: sections 80C, 80D, 80CCD(1B)/(2), HRA,
    section 24(b) home-loan interest and LTA. Amounts are annual rupees. */
module Deductions {
  import opened Common

  const Limit80C: real := 150000.0
  const SelfLimit80D: real := 25000.0
  const CheckupLimit80D: real := 5000.0
  const Limit80CCD1B: real := 50000.0
  const Limit24: real := 200000.0

  // ---------------------------------------------------------------- 80C

  datatype Section80CReport = Section80CReport(
    total: real,
    eligible: real,
    remaining: real,
    fullyUtilized: bool)

  /** Six contributions summed and capped at 1.5 lakh. */
  function Section80C(ppf: real, elss: real, lifeInsurance: real, homeLoanPrincipal: real,
                      tuitionFees: real, epf: real): (r: Section80CReport)
    ensures r.total == ppf + elss + lifeInsurance + homeLoanPrincipal + tuitionFees + epf
    ensures r.eligible <= Limit80C && r.eligible <= r.total
    ensures r.eligible == r.total || r.eligible == Limit80C
    ensures r.remaining >= 0.0
    ensures r.fullyUtilized <==> r.total >= Limit80C
    ensures r.fullyUtilized <==> r.eligible == Limit80C
    ensures r.total <= Limit80C ==> r.eligible + r.remaining == Limit80C
    ensures r.total >= Limit80C ==> r.remaining == 0.0
  {
    var total := ppf + elss + lifeInsurance + homeLoanPrincipal + tuitionFees + epf;
    var remaining := Max(0.0, Limit80C - total);
    Section80CReport(total, Min(total, Limit80C), remaining, remaining == 0.0)
  }

  /** The eligible amount is the largest one within both the contributions
      and the cap, and the room left is the least non-negative top-up that
      reaches the cap. */
  lemma Section80CIsGreatest(ppf: real, elss: real, lifeInsurance: real, homeLoanPrincipal: real,
                             tuitionFees: real, epf: real, y: real, topUp: real)
    ensures var r := Section80C(ppf, elss, lifeInsurance, homeLoanPrincipal, tuitionFees, epf);
            y <= r.total && y <= Limit80C ==> y <= r.eligible
    ensures var r := Section80C(ppf, elss, lifeInsurance, homeLoanPrincipal, tuitionFees, epf);
            topUp >= 0.0 && r.total + topUp >= Limit80C ==> r.remaining <= topUp
  {
  }

  // ---------------------------------------------------------------- 80D

  datatype Section80DReport = Section80DReport(
    selfEligible: real,
    parentsEligible: real,
    checkupEligible: real,
    totalEligible: real,
    maximumPossible: real)

  function ParentsLimit80D(parentsSenior: bool): real
  {
    if parentsSenior then 50000.0 else 25000.0
  }

  /** Health-insurance premiums: self/family capped at 25000 with the
      preventive check-up (itself capped at 5000) counted inside that cap;
      parents capped at 25000, or 50000 when they are senior citizens. */
  function Section80D(selfPremium: real, parentsPremium: real, parentsSenior: bool,
                      checkup: real): (r: Section80DReport)
    ensures ParentsLimit80D(parentsSenior) == 50000.0 <==> parentsSenior
    ensures r.maximumPossible == SelfLimit80D + ParentsLimit80D(parentsSenior)
    // each part is the premium or its cap, whichever is smaller
    ensures r.selfEligible <= SelfLimit80D && r.selfEligible <= selfPremium
    ensures r.selfEligible == selfPremium || r.selfEligible == SelfLimit80D
    ensures r.parentsEligible <= ParentsLimit80D(parentsSenior) && r.parentsEligible <= parentsPremium
    ensures r.parentsEligible == parentsPremium || r.parentsEligible == ParentsLimit80D(parentsSenior)
    ensures r.checkupEligible <= CheckupLimit80D && r.checkupEligible <= checkup
    ensures r.checkupEligible == checkup || r.checkupEligible == CheckupLimit80D
    // the check-up shares the self cap; parents have their own
    ensures r.totalEligible == Min(r.selfEligible + r.checkupEligible, SelfLimit80D) + r.parentsEligible
    ensures r.totalEligible - r.parentsEligible <= SelfLimit80D
    ensures r.totalEligible <= r.maximumPossible
    ensures r.totalEligible - r.parentsEligible <= r.selfEligible + r.checkupEligible
    ensures checkup >= 0.0 ==> r.totalEligible >= r.selfEligible + r.parentsEligible
  {
    var selfEligible := Min(selfPremium, SelfLimit80D);
    var parentsEligible := Min(parentsPremium, ParentsLimit80D(parentsSenior));
    var checkupEligible := Min(checkup, CheckupLimit80D);
    var selfWithCheckup := Min(selfEligible + checkupEligible, SelfLimit80D);
    Section80DReport(selfEligible, parentsEligible, checkupEligible,
                     selfWithCheckup + parentsEligible,
                     SelfLimit80D + ParentsLimit80D(parentsSenior))
  }

  /** No split of the premiums that respects every cap (self and check-up
      together within 25000, the check-up within 5000, parents within their
      limit) claims more than the total. */
  lemma Section80DIsGreatest(selfPremium: real, parentsPremium: real, parentsSenior: bool,
                             checkup: real, a: real, c: real, p: real)
    requires 0.0 <= a <= selfPremium && 0.0 <= c <= checkup && c <= CheckupLimit80D
    requires a + c <= SelfLimit80D
    requires p <= parentsPremium && p <= ParentsLimit80D(parentsSenior)
    ensures a + c + p <= Section80D(selfPremium, parentsPremium, parentsSenior, checkup).totalEligible
  {
  }

  // ---------------------------------------------------------------- 80CCD

  datatype NpsReport = NpsReport(
    ccd1bEligible: real,
    ccd2Eligible: real,
    employerLimit: real,
    total: real)

  /** Employee NPS contribution capped at 50000 under 80CCD(1B); employer
      contribution capped at 10% of gross salary under 80CCD(2). */
  function Nps80CCD(employee: real, grossSalary: real, employer: real): (r: NpsReport)
    ensures r.ccd1bEligible <= Limit80CCD1B && r.ccd1bEligible <= employee
    ensures r.ccd1bEligible == employee || r.ccd1bEligible == Limit80CCD1B
    ensures r.employerLimit == grossSalary * 0.10
    ensures r.ccd2Eligible <= r.employerLimit && r.ccd2Eligible <= employer
    ensures r.ccd2Eligible == employer || r.ccd2Eligible == r.employerLimit
    ensures r.total == r.ccd1bEligible + r.ccd2Eligible
  {
    var employerLimit := grossSalary * 0.10;
    var ccd1b := Min(employee, Limit80CCD1B);
    var ccd2 := Min(employer, employerLimit);
    NpsReport(ccd1b, ccd2, employerLimit, ccd1b + ccd2)
  }

  // ---------------------------------------------------------------- HRA

  datatype HraReport = HraReport(
    rentMinusTenPercentBasic: real,
    basicPercentage: real,
    exemption: real,
    taxable: real)

  function MetroShare(isMetro: bool): real
  {
    if isMetro then 0.50 else 0.40
  }

  /** Exempt HRA is the least of the allowance received, rent paid above 10%
      of basic, and 50% (metro) or 40% (elsewhere) of basic, floored at 0. */
  function HraExemption(basic: real, hra: real, rent: real, isMetro: bool): (r: HraReport)
    ensures r.basicPercentage == basic * MetroShare(isMetro)
    ensures r.rentMinusTenPercentBasic == Max(0.0, rent - basic * 0.10)
    ensures r.exemption >= 0.0
    ensures r.exemption + r.taxable == hra
    // the exemption is 0 or meets all three limits
    ensures r.exemption == 0.0 ||
            (r.exemption <= hra && r.exemption <= rent - basic * 0.10 && r.exemption <= r.basicPercentage)
  {
    var rentOver := rent - basic * 0.10;
    var share := basic * MetroShare(isMetro);
    var exemption := Max(0.0, Min(Min(hra, rentOver), share));
    HraReport(Max(0.0, rentOver), share, exemption, hra - exemption)
  }

  /** No amount that meets all three HRA limits exceeds the exemption: the
      exemption is the largest admissible one. */
  lemma HraExemptionIsGreatest(basic: real, hra: real, rent: real, isMetro: bool, y: real)
    requires 0.0 <= y && y <= hra && y <= rent - basic * 0.10 && y <= basic * MetroShare(isMetro)
    ensures y <= HraExemption(basic, hra, rent, isMetro).exemption
  {
  }

  // ---------------------------------------------------------------- 24(b)

  datatype PropertyKind = SelfOccupied | LetOut

  /** The property type string, case-insensitively; anything other than
      "let_out" is treated as self-occupied. */
  function ClassifyProperty(propertyType: string): (k: PropertyKind)
    ensures k == LetOut <==> Lower(propertyType) == "let_out"
  {
    if Lower(propertyType) == "self_occupied" then SelfOccupied
    else if Lower(propertyType) == "let_out" then LetOut
    else SelfOccupied
  }

  datatype Section24Report = Section24Report(
    eligible: real,
    limit: Option<real>,
    nonDeductible: real)

  /** Home-loan interest: capped at 2 lakh unless the property is let out. */
  function Section24Interest(interest: real, propertyType: string): (r: Section24Report)
    ensures ClassifyProperty(propertyType) == LetOut ==>
              r.eligible == interest && r.limit == None && r.nonDeductible == 0.0
    ensures ClassifyProperty(propertyType) == SelfOccupied ==>
              && r.limit == Some(Limit24) && r.eligible <= Limit24 && r.eligible <= interest
              && (r.eligible == interest || r.eligible == Limit24)
              && r.nonDeductible == Max(0.0, interest - Limit24)
    ensures r.eligible + r.nonDeductible == interest
    ensures interest <= Limit24 ==> r.eligible == interest
  {
    match ClassifyProperty(propertyType)
    case LetOut => Section24Report(interest, None, 0.0)
    case SelfOccupied =>
      Section24Report(Min(interest, Limit24), Some(Limit24), Max(0.0, interest - Limit24))
  }

  /** For a self-occupied property the deduction is the largest amount
      within both the interest paid and the 2 lakh cap. */
  lemma Section24IsGreatest(interest: real, propertyType: string, y: real)
    requires ClassifyProperty(propertyType) == SelfOccupied
    requires y <= interest && y <= Limit24
    ensures y <= Section24Interest(interest, propertyType).eligible
  {
  }

  // ---------------------------------------------------------------- LTA

  datatype LtaReport = LtaReport(exemption: real, taxable: real)

  /** Leave travel allowance: nothing is exempt for international travel;
      otherwise the lesser of the allowance and the travel fare. */
  function LtaExemption(lta: real, travel: real, travelType: string): (r: LtaReport)
    ensures Lower(travelType) == "international" ==> r.exemption == 0.0
    ensures Lower(travelType) != "international" ==>
              r.exemption <= lta && r.exemption <= travel && (r.exemption == lta || r.exemption == travel)
    ensures r.exemption + r.taxable == lta
  {
    var exemption := if Lower(travelType) == "international" then 0.0 else Min(lta, travel);
    LtaReport(exemption, lta - exemption)
  }
}
