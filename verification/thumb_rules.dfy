/** Rule-of-thumb helpers: life cover as a multiple of income
    (`calculate_life_insurance_coverage`), the 3-6-12 month emergency fund
    (`calculate_emergency_fund`), the 50-30-20 spending check
    (`analyze_spending_ratio`) and the benchmark lookup
    (`get_spending_benchmarks`). */
module ThumbRules {
  import opened Common

  // ---------------------------------------------------------------- life cover

  datatype CoverageReport = CoverageReport(minimum: real, recommended: real, maximum: real)

  function LifeInsuranceCoverage(annualIncome: real, multiplier: real): (c: CoverageReport)
    ensures c.minimum == annualIncome * 10.0
    ensures c.maximum == annualIncome * 20.0
    ensures c.recommended == annualIncome * multiplier
  {
    CoverageReport(annualIncome * 10.0, annualIncome * multiplier, annualIncome * 20.0)
  }

  /** A multiplier inside the 10-20x band recommends cover inside the band. */
  lemma CoverageWithinBand(annualIncome: real, multiplier: real)
    requires annualIncome >= 0.0 && 10.0 <= multiplier <= 20.0
    ensures var c := LifeInsuranceCoverage(annualIncome, multiplier);
            c.minimum <= c.recommended <= c.maximum
  {
    var c := LifeInsuranceCoverage(annualIncome, multiplier);
    assert annualIncome * multiplier - annualIncome * 10.0 == annualIncome * (multiplier - 10.0);
    assert annualIncome * 20.0 - annualIncome * multiplier == annualIncome * (20.0 - multiplier);
  }

  // ---------------------------------------------------------------- emergency fund

  const MaxEmergencyMonths: int := 12

  /** Months by job stability, matched case-insensitively; anything else
      counts as moderate. */
  function BaseMonths(stability: string): (m: int)
    ensures m in {3, 6, 12}
    ensures m == 3 <==> Lower(stability) == "high"
    ensures m == 12 <==> Lower(stability) == "low"
  {
    var s := Lower(stability);
    if s == "high" then 3
    else if s == "moderate" then 6
    else if s == "low" then 12
    else 6
  }

  datatype EmergencyFundReport = EmergencyFundReport(months: int, amount: real)

  /** One extra month per dependent on top of the base, capped at twelve. */
  function EmergencyFund(monthlyExpenses: real, stability: string, dependents: int): (r: EmergencyFundReport)
    ensures r.months == MinInt(BaseMonths(stability) + dependents, MaxEmergencyMonths)
    ensures r.months <= MaxEmergencyMonths
    ensures dependents >= 0 ==> 3 <= r.months
    ensures r.amount == monthlyExpenses * r.months as real
  {
    var months := MinInt(BaseMonths(stability) + dependents, MaxEmergencyMonths);
    EmergencyFundReport(months, monthlyExpenses * months as real)
  }

  /** More dependents never shorten the recommended cushion. */
  lemma EmergencyMonthsMonotone(monthlyExpenses: real, stability: string, fewer: int, more: int)
    requires fewer <= more
    ensures EmergencyFund(monthlyExpenses, stability, fewer).months
            <= EmergencyFund(monthlyExpenses, stability, more).months
  {
  }

  /** Lower-casing twice is lower-casing once. */
  lemma LowerIdempotent(s: string)
    ensures Lower(Lower(s)) == Lower(s)
  {
    assert forall i :: 0 <= i < |s| ==> LowerChar(LowerChar(s[i])) == LowerChar(s[i]);
  }

  /** The stability label is read without regard to case. */
  lemma EmergencyFundIgnoresCase(monthlyExpenses: real, stability: string, dependents: int)
    ensures EmergencyFund(monthlyExpenses, Lower(stability), dependents)
            == EmergencyFund(monthlyExpenses, stability, dependents)
  {
    LowerIdempotent(stability);
  }

  /** Less stable jobs need at least as many months. */
  lemma StabilityOrdersMonths(monthlyExpenses: real, dependents: int)
    ensures EmergencyFund(monthlyExpenses, "high", dependents).months
            <= EmergencyFund(monthlyExpenses, "moderate", dependents).months
            <= EmergencyFund(monthlyExpenses, "low", dependents).months
  {
    assert Lower("high") == "high";
    assert Lower("moderate") == "moderate";
    assert Lower("low") == "low";
  }

  // ---------------------------------------------------------------- 50-30-20

  /** Savings and investments together should take at least 20% of income. */
  const IdealSavingsPercent: real := 20.0
  const IdealSpendingPercent: real := 80.0

  datatype SpendingStatus = Healthy | NeedsImprovement

  datatype SpendingReport = SpendingReport(
    spending: real,
    spendingPercent: real,
    savingsPercent: real,
    investmentPercent: real,
    status: SpendingStatus)

  /** `part / whole × 100`. */
  function ShareOf(part: real, whole: real): real
    requires whole != 0.0
  {
    part / whole * 100.0
  }

  /** A zero income divides by zero in the source. */
  function SpendingRatio(income: real, savings: real, investments: real): (r: Result<SpendingReport>)
    ensures income == 0.0 <==> r == Err(ZeroDivision)
    ensures r.Ok? ==>
      var g := r.value;
      && g.spending == income - (savings + investments)
      && g.savingsPercent == ShareOf(savings, income)
      && g.investmentPercent == ShareOf(investments, income)
      // the three shares account for the whole income
      && g.spendingPercent + g.savingsPercent + g.investmentPercent == 100.0
      && (g.status == Healthy <==> g.savingsPercent + g.investmentPercent >= IdealSavingsPercent)
  {
    if income == 0.0 then Err(ZeroDivision)
    else
      var spending := income - (savings + investments);
      var sp := ShareOf(spending, income);
      var sv := ShareOf(savings, income);
      var iv := ShareOf(investments, income);
      SharesOfWhole(spending, savings, investments, income);
      Ok(SpendingReport(spending, sp, sv, iv,
                        if sv + iv >= IdealSavingsPercent then Healthy else NeedsImprovement))
  }

  lemma SharesOfWhole(a: real, b: real, c: real, whole: real)
    requires whole != 0.0 && a + b + c == whole
    ensures ShareOf(a, whole) + ShareOf(b, whole) + ShareOf(c, whole) == 100.0
  {
    assert ShareOf(a, whole) + ShareOf(b, whole) + ShareOf(c, whole) == (a + b + c) / whole * 100.0;
    assert whole / whole == 1.0;
  }

  /** For a positive income the check is "save at least a fifth of it". */
  lemma HealthyMeansSavingAFifth(income: real, savings: real, investments: real)
    requires income > 0.0
    ensures SpendingRatio(income, savings, investments).value.status == Healthy
            <==> savings + investments >= income * 0.2
  {
    var s := savings + investments;
    assert ShareOf(savings, income) + ShareOf(investments, income) == s / income * 100.0;
    if s >= income * 0.2 {
      assert s / income >= 0.2;
    } else {
      assert s / income < 0.2;
    }
  }

  // ---------------------------------------------------------------- benchmarks

  /** The benchmark categories, in the order the source lists them. */
  const Categories: seq<string> := ["dining", "entertainment", "shopping", "transportation", "utilities", "groceries"]

  /** The age groups with their own table; any other group reads 30-40's. */
  const AgeGroups: seq<string> := ["20-30", "30-40", "40-50", "50+"]

  /** Percentage of income per category, in `Categories` order. */
  function BenchmarkRow(ageGroup: string): (row: seq<int>)
    ensures |row| == |Categories|
  {
    if ageGroup == "20-30" then [10, 8, 12, 10, 8, 15]
    else if ageGroup == "40-50" then [6, 5, 8, 12, 12, 20]
    else if ageGroup == "50+" then [5, 4, 6, 10, 15, 22]
    else [8, 6, 10, 12, 10, 18]
  }

  datatype BenchmarkReport = BenchmarkReport(ageGroup: string, category: string, percent: int)

  /** Index of `x` in `s`, or |s| when it is absent. */
  function IndexOf(s: seq<string>, x: string): (i: nat)
    ensures i <= |s|
    ensures i < |s| ==> s[i] == x
    ensures i == |s| <==> x !in s
  {
    if |s| == 0 then 0
    else if s[0] == x then 0
    else 1 + IndexOf(s[1..], x)
  }

  /** The category is matched case-insensitively; an unknown one is an error
      listing the categories. */
  function SpendingBenchmark(ageGroup: string, category: string): (r: Result<BenchmarkReport>)
    ensures r.Ok? <==> Lower(category) in Categories
    ensures !r.Ok? ==> r == Err(UnknownCategory(Categories))
    ensures r.Ok? ==>
      && r.value.ageGroup == ageGroup && r.value.category == category
      && exists i :: 0 <= i < |Categories| && Categories[i] == Lower(category)
                     && r.value.percent == BenchmarkRow(ageGroup)[i]
  {
    var i := IndexOf(Categories, Lower(category));
    if i == |Categories| then Err(UnknownCategory(Categories))
    else Ok(BenchmarkReport(ageGroup, category, BenchmarkRow(ageGroup)[i]))
  }

  /** A group without a table of its own reads the 30-40 table. */
  lemma UnknownGroupReadsThirties(ageGroup: string, category: string)
    requires ageGroup !in AgeGroups
    ensures SpendingBenchmark(ageGroup, category) ==
            (match SpendingBenchmark("30-40", category)
             case Ok(b) => Ok(b.(ageGroup := ageGroup))
             case Err(e) => Err(e))
  {
    assert ageGroup != "20-30" && ageGroup != "40-50" && ageGroup != "50+";
    assert BenchmarkRow(ageGroup) == BenchmarkRow("30-40");
  }

  /** In every group the six tracked categories stay within the 80% the
      50-30-20 rule leaves for spending, and groceries is the largest. */
  lemma BenchmarksWithinSpendingShare(ageGroup: string)
    ensures var row := BenchmarkRow(ageGroup);
            && (row[0] + row[1] + row[2] + row[3] + row[4] + row[5]) as real < IdealSpendingPercent
            && forall i :: 0 <= i < |row| ==> row[i] <= row[5]
  {
  }
}
