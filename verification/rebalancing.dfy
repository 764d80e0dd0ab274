/** Portfolio rebalancing (`suggest_rebalancing`): compare the current
    equity/debt split with "rule minus age" and act when equity drifts more
    than five points from the target. */
module Rebalancing {
  import opened Common
  import opened AgeAllocation

  const RebalancingThreshold: real := 5.0

  datatype Action = SellEquityBuyDebt | SellDebtBuyEquity | NoRebalancing

  datatype RebalancingReport = RebalancingReport(
    recommendedEquity: int,
    recommendedDebt: int,
    equityDeviation: real,
    debtDeviation: real,
    currentEquityValue: real,
    currentDebtValue: real,
    recommendedEquityValue: real,
    recommendedDebtValue: real,
    equityChange: real,
    debtChange: real,
    needsRebalancing: bool,
    action: Action)

  /** Which way to trade, given how far equity sits above its target. */
  function ActionFor(deviation: real): (a: Action)
    ensures a == SellEquityBuyDebt <==> deviation > RebalancingThreshold
    ensures a == SellDebtBuyEquity <==> deviation < -RebalancingThreshold
    ensures a == NoRebalancing <==> Abs(deviation) <= RebalancingThreshold
  {
    if deviation > RebalancingThreshold then SellEquityBuyDebt
    else if deviation < -RebalancingThreshold then SellDebtBuyEquity
    else NoRebalancing
  }

  /** `portfolio × pct / 100`. */
  function ValueOf(portfolio: real, pct: real): real
  {
    portfolio * (pct / 100.0)
  }

  function SuggestRebalancing(equityPct: real, debtPct: real, age: int, portfolio: real,
                              rule: int): (r: Result<RebalancingReport>)
    // validation, in the order the checks are made
    ensures age < 18 || age > 100 ==> r == Err(InvalidAge)
    ensures 18 <= age <= 100 && portfolio <= 0.0 ==> r == Err(NonPositivePortfolioValue)
    ensures (18 <= age <= 100 && portfolio > 0.0
             && !(0.0 <= equityPct <= 100.0 && 0.0 <= debtPct <= 100.0)) ==> r == Err(PercentageOutOfRange)
    ensures (18 <= age <= 100 && portfolio > 0.0 && 0.0 <= equityPct <= 100.0
             && 0.0 <= debtPct <= 100.0 && rule !in {100, 110, 120}) ==> r == Err(InvalidAllocationRule)
    ensures (18 <= age <= 100 && portfolio > 0.0 && 0.0 <= equityPct <= 100.0
             && 0.0 <= debtPct <= 100.0 && rule in {100, 110, 120}
             && !(99.0 <= equityPct + debtPct <= 101.0)) ==> r == Err(AllocationNotHundred(equityPct + debtPct))
    ensures r.Ok? <==> 18 <= age <= 100 && portfolio > 0.0 && 0.0 <= equityPct <= 100.0
                       && 0.0 <= debtPct <= 100.0 && rule in {100, 110, 120}
                       && 99.0 <= equityPct + debtPct <= 101.0
    ensures r.Ok? ==>
      var g := r.value;
      && g.recommendedEquity == EquityFor(rule, age)
      && g.recommendedEquity + g.recommendedDebt == 100
      && g.equityDeviation == equityPct - g.recommendedEquity as real
      // deviations of the two classes offset up to the declared total's miss of 100
      && g.equityDeviation + g.debtDeviation == equityPct + debtPct - 100.0
      && g.debtDeviation == debtPct - g.recommendedDebt as real
      // rupee values are the portfolio's share at each percentage
      && g.currentEquityValue == ValueOf(portfolio, equityPct)
      && g.currentDebtValue == ValueOf(portfolio, debtPct)
      && g.recommendedEquityValue == ValueOf(portfolio, g.recommendedEquity as real)
      && g.recommendedDebtValue == ValueOf(portfolio, g.recommendedDebt as real)
      // the recommended values split the whole portfolio
      && g.recommendedEquityValue + g.recommendedDebtValue == portfolio
      // applying the changes lands on the recommended values
      && g.currentEquityValue + g.equityChange == g.recommendedEquityValue
      && g.currentDebtValue + g.debtChange == g.recommendedDebtValue
      && g.action == ActionFor(g.equityDeviation)
      && (g.needsRebalancing <==> g.action != NoRebalancing)
      // selling equity means the equity change is negative, buying it positive
      && (g.action == SellEquityBuyDebt ==> g.equityChange < 0.0)
      && (g.action == SellDebtBuyEquity ==> g.equityChange > 0.0)
  {
    if age < 18 || age > 100 then Err(InvalidAge)
    else if portfolio <= 0.0 then Err(NonPositivePortfolioValue)
    else if !(0.0 <= equityPct <= 100.0) || !(0.0 <= debtPct <= 100.0) then Err(PercentageOutOfRange)
    else if rule !in {100, 110, 120} then Err(InvalidAllocationRule)
    else if !(99.0 <= equityPct + debtPct <= 101.0) then Err(AllocationNotHundred(equityPct + debtPct))
    else
      var recEquity := EquityFor(rule, age);
      var recDebt := 100 - recEquity;
      var eqDev := equityPct - recEquity as real;
      var debtDev := debtPct - recDebt as real;
      var curEq := ValueOf(portfolio, equityPct);
      var curDebt := ValueOf(portfolio, debtPct);
      var recEqValue := ValueOf(portfolio, recEquity as real);
      var recDebtValue := ValueOf(portfolio, recDebt as real);
      ValuesSplit(portfolio, recEquity as real, recDebt as real);
      ChangeSign(portfolio, equityPct, recEquity as real);
      Ok(RebalancingReport(recEquity, recDebt, eqDev, debtDev, curEq, curDebt, recEqValue, recDebtValue,
                           recEqValue - curEq, recDebtValue - curDebt,
                           Abs(eqDev) > RebalancingThreshold, ActionFor(eqDev)))
  }

  /** Two percentages adding to 100 split the portfolio exactly. */
  lemma ValuesSplit(portfolio: real, a: real, b: real)
    ensures a + b == 100.0 ==> ValueOf(portfolio, a) + ValueOf(portfolio, b) == portfolio
  {
    if a + b == 100.0 {
      assert portfolio * (a / 100.0) + portfolio * (b / 100.0) == portfolio * ((a + b) / 100.0);
    }
  }

  /** Moving from a higher percentage to a lower one is a sale, and back a purchase. */
  lemma ChangeSign(portfolio: real, current: real, target: real)
    requires portfolio > 0.0
    ensures current > target ==> ValueOf(portfolio, target) - ValueOf(portfolio, current) < 0.0
    ensures current < target ==> ValueOf(portfolio, target) - ValueOf(portfolio, current) > 0.0
  {
    assert ValueOf(portfolio, target) - ValueOf(portfolio, current)
           == portfolio * ((target - current) / 100.0);
  }

  /** When the declared split is exactly 100%, rebalancing is self-financing:
      the equity bought equals the debt sold and vice versa. */
  lemma RebalancingSelfFinancing(equityPct: real, debtPct: real, age: int, portfolio: real, rule: int)
    requires 18 <= age <= 100 && portfolio > 0.0 && rule in {100, 110, 120}
    requires 0.0 <= equityPct <= 100.0 && 0.0 <= debtPct <= 100.0 && equityPct + debtPct == 100.0
    ensures var g := SuggestRebalancing(equityPct, debtPct, age, portfolio, rule).value;
            g.equityChange == -g.debtChange
  {
    ValuesSplit(portfolio, equityPct, debtPct);
  }
}
