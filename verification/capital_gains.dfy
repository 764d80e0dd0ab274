/** Capital-gains tax on one sale (`calculate_capital_gains_tax`), FY 2024-25
    rules: equity held over 365 days pays 12.5% above a 1.25 lakh exemption
    (section 112A), otherwise 20% (section 111A); debt held over 1095 days
    pays 12.5%, otherwise the assumed 30% slab plus 4% cess. */
module CapitalGains {
  import opened Common

  const EquityLongTermDays: int := 365
  const DebtLongTermDays: int := 1095
  const EquityExemption: real := 125000.0

  datatype Treatment = CapitalLoss | EquityLongTerm | EquityShortTerm | DebtLongTerm | DebtShortTerm

  /** Percentage charged on the taxable gain under each treatment. */
  function RatePercent(t: Treatment): real
  {
    match t
    case CapitalLoss => 0.0
    case EquityLongTerm => 12.5
    case EquityShortTerm => 20.0
    case DebtLongTerm => 12.5
    case DebtShortTerm => 30.0 * (1.0 + 4.0 / 100.0)
  }

  datatype GainsReport = GainsReport(
    treatment: Treatment,
    buyValue: real,
    sellValue: real,
    gain: real,
    capitalLoss: real,
    exemptionUsed: real,
    taxableGain: real,
    tax: real,
    netProceeds: real,
    effectiveRatePercent: Option<real>)

  /** Which rule applies to a positive gain. */
  function Classify(gain: real, holdingDays: int, isEquity: bool): (t: Treatment)
    ensures t == CapitalLoss <==> gain <= 0.0
    ensures t == EquityLongTerm <==> gain > 0.0 && isEquity && holdingDays > EquityLongTermDays
    ensures t == EquityShortTerm <==> gain > 0.0 && isEquity && holdingDays <= EquityLongTermDays
    ensures t == DebtLongTerm <==> gain > 0.0 && !isEquity && holdingDays > DebtLongTermDays
    ensures t == DebtShortTerm <==> gain > 0.0 && !isEquity && holdingDays <= DebtLongTermDays
  {
    if gain <= 0.0 then CapitalLoss
    else if isEquity then
      (if holdingDays > EquityLongTermDays then EquityLongTerm else EquityShortTerm)
    else
      (if holdingDays > DebtLongTermDays then DebtLongTerm else DebtShortTerm)
  }

  function CapitalGainsTax(buyPrice: real, sellPrice: real, holdingDays: int, quantity: int,
                           isEquity: bool): (r: Result<GainsReport>)
    // validation, in the order the checks are made
    ensures (buyPrice <= 0.0 || sellPrice <= 0.0) ==> r == Err(NonPositivePrice)
    ensures buyPrice > 0.0 && sellPrice > 0.0 && quantity <= 0 ==> r == Err(NonPositiveQuantity)
    ensures (buyPrice > 0.0 && sellPrice > 0.0 && quantity > 0 && holdingDays < 0) ==>
              r == Err(NegativeHoldingPeriod)
    ensures r.Ok? <==> buyPrice > 0.0 && sellPrice > 0.0 && quantity > 0 && holdingDays >= 0
    ensures r.Ok? ==>
      var g := r.value;
      && g.buyValue == buyPrice * quantity as real
      && g.sellValue == sellPrice * quantity as real
      && g.gain == g.sellValue - g.buyValue
      && g.treatment == Classify(g.gain, holdingDays, isEquity)
      && g.netProceeds == g.sellValue - g.tax
      && g.capitalLoss == (if g.gain <= 0.0 then -g.gain else 0.0)
      // a loss or break-even is not taxed and returns the whole sale value
      && (g.gain <= 0.0 ==> g.tax == 0.0 && g.taxableGain == 0.0 && g.netProceeds == g.sellValue
                            && g.effectiveRatePercent == None)
      // a gain is taxed at less than its own amount, so the sale still profits
      && (g.gain > 0.0 ==> 0.0 <= g.tax < g.gain && g.netProceeds > g.buyValue
                           && g.tax == g.taxableGain * RatePercent(g.treatment) / 100.0
                           && g.effectiveRatePercent == Some(g.tax / g.gain * 100.0))
      // the equity long-term exemption splits the gain into exempt and taxable parts
      && (g.treatment == EquityLongTerm ==>
            g.taxableGain + g.exemptionUsed == g.gain && g.exemptionUsed <= EquityExemption
            && (g.gain > EquityExemption ==> g.exemptionUsed == EquityExemption))
      && (g.treatment != EquityLongTerm ==> g.exemptionUsed == 0.0)
      && (g.gain > 0.0 && g.treatment != EquityLongTerm ==> g.taxableGain == g.gain)
  {
    if buyPrice <= 0.0 || sellPrice <= 0.0 then Err(NonPositivePrice)
    else if quantity <= 0 then Err(NonPositiveQuantity)
    else if holdingDays < 0 then Err(NegativeHoldingPeriod)
    else
      var buyValue := buyPrice * quantity as real;
      var sellValue := sellPrice * quantity as real;
      var gain := sellValue - buyValue;
      var t := Classify(gain, holdingDays, isEquity);
      if gain <= 0.0 then
        Ok(GainsReport(t, buyValue, sellValue, gain, Abs(gain), 0.0, 0.0, 0.0, sellValue, None))
      else
        var taxable := if t == EquityLongTerm then Max(0.0, gain - EquityExemption) else gain;
        var exemption := if t == EquityLongTerm then Min(gain, EquityExemption) else 0.0;
        var tax := taxable * (RatePercent(t) / 100.0);
        Ok(GainsReport(t, buyValue, sellValue, gain, 0.0, exemption, taxable, tax,
                       sellValue - tax, Some(tax / gain * 100.0)))
  }

  /** Holding past the long-term threshold never costs more tax than selling
      the same position short-term. */
  lemma LongTermNeverCostsMore(buyPrice: real, sellPrice: real, quantity: int, isEquity: bool,
                               longDays: int, shortDays: int)
    requires buyPrice > 0.0 && sellPrice > 0.0 && quantity > 0
    requires 0 <= shortDays
    requires isEquity ==> shortDays <= EquityLongTermDays < longDays
    requires !isEquity ==> shortDays <= DebtLongTermDays < longDays
    ensures CapitalGainsTax(buyPrice, sellPrice, longDays, quantity, isEquity).value.tax
            <= CapitalGainsTax(buyPrice, sellPrice, shortDays, quantity, isEquity).value.tax
  {
  }

  /** Long-term equity gains within the exemption are tax free. */
  lemma EquityExemptionShelters(buyPrice: real, sellPrice: real, holdingDays: int, quantity: int)
    requires buyPrice > 0.0 && sellPrice > 0.0 && quantity > 0 && holdingDays > EquityLongTermDays
    requires (sellPrice - buyPrice) * quantity as real <= EquityExemption
    ensures CapitalGainsTax(buyPrice, sellPrice, holdingDays, quantity, true).value.tax == 0.0
  {
  }
}
