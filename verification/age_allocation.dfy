/** Age-based asset allocation (`calculate_age_based_allocation`): equity is
    "rule minus age" clamped to 20–80%, then a 5% (under 40) or 7% gold slice
    is carved out of equity and debt proportionally, with Python's rounding
    and a fix-up that makes the three shares add to 100. */
module AgeAllocation {
  import opened Common

  const MinEquity: int := 20
  const MaxEquity: int := 80

  datatype RiskTolerance = Conservative | Moderate | Aggressive

  /** The rule the caller asked for: one of the three fixed rules, or "auto". */
  datatype RuleChoice = Auto | Fixed(rule: int)

  /** The risk-tolerance string, case-insensitively. */
  function ParseRisk(s: string): (r: Option<RiskTolerance>)
    ensures r == Some(Conservative) <==> Lower(s) == "conservative"
    ensures r == Some(Moderate) <==> Lower(s) == "moderate"
    ensures r == Some(Aggressive) <==> Lower(s) == "aggressive"
    ensures r == None <==> Lower(s) !in {"conservative", "moderate", "aggressive"}
  {
    var l := Lower(s);
    if l == "conservative" then Some(Conservative)
    else if l == "moderate" then Some(Moderate)
    else if l == "aggressive" then Some(Aggressive)
    else None
  }

  /** The allocation-rule string, case-insensitively. */
  function ParseRule(s: string): (r: Option<RuleChoice>)
    ensures r == Some(Auto) <==> Lower(s) == "auto"
    ensures r == Some(Fixed(100)) <==> Lower(s) == "100"
    ensures r == Some(Fixed(110)) <==> Lower(s) == "110"
    ensures r == Some(Fixed(120)) <==> Lower(s) == "120"
    ensures r.Some? && r.value.Fixed? ==> r.value.rule in {100, 110, 120}
    ensures r == None <==> Lower(s) !in {"100", "110", "120", "auto"}
  {
    var l := Lower(s);
    if l == "100" then Some(Fixed(100))
    else if l == "110" then Some(Fixed(110))
    else if l == "120" then Some(Fixed(120))
    else if l == "auto" then Some(Auto)
    else None
  }

  /** "auto" picks the rule from the risk tolerance; aggressive investors get
      120 only while under 40. */
  function SelectRule(choice: RuleChoice, risk: RiskTolerance, age: int): (rule: int)
    ensures choice.Fixed? ==> rule == choice.rule
    ensures choice == Auto ==>
              && (risk == Conservative ==> rule == 100)
              && (risk == Moderate ==> rule == 110)
              && (risk == Aggressive ==> rule == (if age < 40 then 120 else 110))
  {
    match choice
    case Fixed(n) => n
    case Auto =>
      match risk
      case Conservative => 100
      case Moderate => 110
      case Aggressive => if age < 40 then 120 else 110
  }

  /** "rule minus age" clamped to the equity band. */
  function EquityFor(rule: int, age: int): (e: int)
    ensures MinEquity <= e <= MaxEquity
    ensures MinEquity <= rule - age <= MaxEquity ==> e == rule - age
    ensures rule - age < MinEquity ==> e == MinEquity
    ensures rule - age > MaxEquity ==> e == MaxEquity
  {
    if rule - age < MinEquity then MinEquity
    else if rule - age > MaxEquity then MaxEquity
    else rule - age
  }

  function GoldFor(age: int): int
  {
    if age < 40 then 5 else 7
  }

  /** Portions of each asset class, in percent of that class. */
  datatype Weight = Weight(name: string, percent: int)

  function EquityBreakdown(age: int): seq<Weight>
  {
    if age < 35 then
      [Weight("large_cap", 40), Weight("mid_cap", 35), Weight("small_cap", 15), Weight("international", 10)]
    else if age < 50 then
      [Weight("large_cap", 50), Weight("mid_cap", 30), Weight("small_cap", 10), Weight("international", 10)]
    else
      [Weight("large_cap", 60), Weight("mid_cap", 25), Weight("small_cap", 5), Weight("international", 10)]
  }

  const DebtBreakdown: seq<Weight> :=
    [Weight("ppf_epf", 40), Weight("debt_funds", 30), Weight("fixed_deposits", 20), Weight("bonds", 10)]

  const GoldBreakdown: seq<Weight> :=
    [Weight("sovereign_gold_bonds", 60), Weight("gold_etf", 30), Weight("digital_gold", 10)]

  function TotalPercent(ws: seq<Weight>): int
  {
    if |ws| == 0 then 0 else ws[0].percent + TotalPercent(ws[1..])
  }

  /** Every breakdown splits its asset class completely. */
  lemma BreakdownsAreComplete(age: int)
    ensures TotalPercent(EquityBreakdown(age)) == 100
    ensures TotalPercent(DebtBreakdown) == 100
    ensures TotalPercent(GoldBreakdown) == 100
  {
    TotalOfFour(EquityBreakdown(age));
    TotalOfFour(DebtBreakdown);
    TotalOfThree(GoldBreakdown);
  }

  lemma TotalOfThree(ws: seq<Weight>)
    requires |ws| == 3
    ensures TotalPercent(ws) == ws[0].percent + ws[1].percent + ws[2].percent
  {
    assert ws[1..][1..] == ws[2..];
    assert ws[2..][1..] == [];
    assert TotalPercent(ws[2..]) == ws[2].percent;
    assert TotalPercent(ws[1..]) == ws[1].percent + ws[2].percent;
  }

  lemma TotalOfFour(ws: seq<Weight>)
    requires |ws| == 4
    ensures TotalPercent(ws) == ws[0].percent + ws[1].percent + ws[2].percent + ws[3].percent
  {
    TotalOfThree(ws[1..]);
  }

  /** Each entry of a breakdown scaled to the share of the whole portfolio. */
  function Scale(ws: seq<Weight>, share: int): (amounts: seq<real>)
    ensures |amounts| == |ws|
    ensures forall i :: 0 <= i < |ws| ==> amounts[i] == ws[i].percent as real * share as real / 100.0
  {
    seq(|ws|, i requires 0 <= i < |ws| => ws[i].percent as real * share as real / 100.0)
  }

  /** What the rule-comparison table shows for one rule. */
  datatype RuleStyle = ConservativeStyle | ModerateStyle | AggressiveStyle

  datatype RuleComparison = RuleComparison(rule: int, equity: int, debt: int, style: RuleStyle)

  /** `_get_rule_description`: anything other than 100 or 110 is described as
      aggressive. */
  function DescribeRule(rule: int, age: int): (c: RuleComparison)
    ensures c.rule == rule && c.equity == EquityFor(rule, age) && c.equity + c.debt == 100
    ensures c.style == ConservativeStyle <==> rule == 100
    ensures c.style == ModerateStyle <==> rule == 110
  {
    var e := EquityFor(rule, age);
    RuleComparison(rule, e, 100 - e,
                   if rule == 100 then ConservativeStyle
                   else if rule == 110 then ModerateStyle
                   else AggressiveStyle)
  }

  datatype AllocationReport = AllocationReport(
    selectedRule: int,
    equityBeforeGold: int,
    equity: int,
    debt: int,
    gold: int,
    equityAmounts: seq<real>,
    debtAmounts: seq<real>,
    goldAmounts: seq<real>,
    comparisons: seq<RuleComparison>,
    yearsToSixty: int)

  /** A share's exact value once `gold` points are carved out proportionally. */
  function ExactShare(share: int, gold: int): real
  {
    share as real * (1.0 - gold as real / 100.0)
  }

  /** The two exact shares and gold add to 100. */
  lemma ExactSharesSum(equity: int, gold: int)
    ensures ExactShare(equity, gold) + ExactShare(100 - equity, gold) == 100.0 - gold as real
  {
    var keep := 1.0 - gold as real / 100.0;
    assert equity as real * keep + (100 - equity) as real * keep == 100.0 * keep;
  }

  /** A share of at least 20 points keeps over 18 of them with at most 10% gold. */
  lemma ExactShareBound(share: int, gold: int)
    ensures share >= MinEquity && 0 <= gold <= 10 ==> ExactShare(share, gold) >= 18.0
  {
    if share >= MinEquity && 0 <= gold <= 10 {
      var keep := 1.0 - gold as real / 100.0;
      assert share as real * keep >= 20.0 * keep;
    }
  }

  /** Gold is carved out of both shares in proportion: each is rounded
      half-to-even, and when the rounded shares and gold do not add to 100
      the equity share absorbs the difference. */
  function SplitWithGold(equity: int, gold: int): (p: (int, int))
    ensures p.0 + p.1 + gold == 100
    // both shares stay within half a point of their exact proportional value
    ensures -0.5 <= p.0 as real - ExactShare(equity, gold) <= 0.5
    ensures -0.5 <= p.1 as real - ExactShare(100 - equity, gold) <= 0.5
    // inside the equity band with at most 10% gold, neither share vanishes
    ensures MinEquity <= equity <= MaxEquity && 0 <= gold <= 10 ==> p.0 > 0 && p.1 > 0
  {
    var eq := RoundHalfEven(ExactShare(equity, gold));
    var debt := RoundHalfEven(ExactShare(100 - equity, gold));
    ExactSharesSum(equity, gold);
    ExactShareBound(equity, gold);
    ExactShareBound(100 - equity, gold);
    if eq + debt + gold != 100 then (100 - debt - gold, debt) else (eq, debt)
  }

  /** The source's allocation with rounding as written: `round` on the two
      scaled shares, then the fix-up. */
  function AgeBasedAllocation(age: int, risk: string, rule: string): (r: Result<AllocationReport>)
    ensures age < 18 || age > 100 ==> r == Err(InvalidAge)
    ensures 18 <= age <= 100 && ParseRisk(risk) == None ==> r == Err(InvalidRiskTolerance)
    ensures (18 <= age <= 100 && ParseRisk(risk).Some? && ParseRule(rule) == None)
            ==> r == Err(InvalidAllocationRule)
    ensures r.Ok? <==> 18 <= age <= 100 && ParseRisk(risk).Some? && ParseRule(rule).Some?
    ensures r.Ok? ==>
      var a := r.value;
      && a.selectedRule == SelectRule(ParseRule(rule).value, ParseRisk(risk).value, age)
      && a.selectedRule in {100, 110, 120}
      && a.equityBeforeGold == EquityFor(a.selectedRule, age)
      && a.gold == GoldFor(age)
      // the three shares always make up the whole portfolio
      && a.equity + a.debt + a.gold == 100
      && a.equity > 0 && a.debt > 0
      && (a.equity, a.debt) == SplitWithGold(a.equityBeforeGold, a.gold)
      && a.equityAmounts == Scale(EquityBreakdown(age), a.equity)
      && a.debtAmounts == Scale(DebtBreakdown, a.debt)
      && a.goldAmounts == Scale(GoldBreakdown, a.gold)
      && a.comparisons == [DescribeRule(100, age), DescribeRule(110, age), DescribeRule(120, age)]
      && a.yearsToSixty == MaxInt(0, 60 - age)
  {
    if age < 18 || age > 100 then Err(InvalidAge)
    else
      match ParseRisk(risk)
      case None => Err(InvalidRiskTolerance)
      case Some(tolerance) =>
        match ParseRule(rule)
        case None => Err(InvalidAllocationRule)
        case Some(choice) =>
          var selected := SelectRule(choice, tolerance, age);
          var equity := EquityFor(selected, age);
          var gold := GoldFor(age);
          var split := SplitWithGold(equity, gold);
          Ok(AllocationReport(selected, equity, split.0, split.1, gold,
                              Scale(EquityBreakdown(age), split.0), Scale(DebtBreakdown, split.1),
                              Scale(GoldBreakdown, gold),
                              [DescribeRule(100, age), DescribeRule(110, age), DescribeRule(120, age)],
                              MaxInt(0, 60 - age)))
  }

  /** For a fixed risk tolerance and rule choice, an older investor is never
      advised more equity (before the gold carve-out). */
  lemma EquityNonIncreasingWithAge(choice: RuleChoice, risk: RiskTolerance, a1: int, a2: int)
    requires a1 <= a2
    requires choice.Fixed? ==> choice.rule in {100, 110, 120}
    ensures EquityFor(SelectRule(choice, risk, a2), a2) <= EquityFor(SelectRule(choice, risk, a1), a1)
  {
  }

  /** A more aggressive rule never gives less equity. */
  lemma ComparisonsOrdered(age: int)
    ensures DescribeRule(100, age).equity <= DescribeRule(110, age).equity <= DescribeRule(120, age).equity
  {
  }

  /** Age 30, conservative: 70% equity and 30% debt scaled by 0.95 are 66.5
      and 28.5, which round to 66 and 28; with 5% gold that is 99, so the
      fix-up raises equity to 67. */
  lemma RoundingFixUpExample()
    ensures SplitWithGold(70, 5) == (67, 28)
    ensures RoundHalfEven(66.5) + RoundHalfEven(28.5) + 5 == 99
  {
    assert RoundHalfEven(66.5) == 66;
    assert RoundHalfEven(28.5) == 28;
  }
}
