# FinAgent calculators in Dafny

This project models the calculator core of FinAgent, a set of Indian
personal-finance agents. The agents themselves are language-model wiring.
What they call are pure `@tool` functions in two modules. Those functions
form four engines, and the model covers all four:

- **Tax engine.** Slab tax under the old and new regimes and the regime
  comparison. The deduction and exemption caps of the Income-tax Act, 1961:
  sections 80C, 80D, 80CCD(1B)/(2), 24(b), HRA and LTA. Capital-gains tax on
  equity and debt (`tax_slabs.dfy`, `regimes.dfy`, `deductions.dfy`,
  `capital_gains.dfy`).
- **Projection engine.** The month-by-month SIP (systematic investment plan)
  projection with yearly step-up. The annuity inversions behind the goal SIP,
  the goal corpus and the retirement corpus. EPF/VPF (provident fund)
  maturity (`compounding.dfy`, `sip.dfy`, `goals.dfy`, `retirement.dfy`).
- **Allocation engine.** The "N minus age" equity/debt/gold allocation, the
  rebalancing decision, and the aggregation of holdings by market-cap class
  and sector (`age_allocation.dfy`, `rebalancing.dfy`, `portfolio.dfy`).
- **Affordability engine.** EMI (equated monthly instalment) amortisation,
  buy-versus-rent, FOIR-based loan eligibility, and the rule-of-thumb helpers
  for life cover, emergency fund, 50-30-20 spending and spending benchmarks
  (`affordability.dfy`, `thumb_rules.dfy`).

Every tool is a pure function over exact `real`s. Each validating tool
returns a `Result`, and each of the source's error messages becomes one
`Error` constructor (`common.dfy`). Python exceptions that escape a tool
become `Error` constructors too: `ZeroDivision` and `UnboundSelf`.

`compounding.dfy` holds three loop models:

- `Grow` pays the instalment, then compounds. This is the SIP month loop and
  the annuity-due closed forms of EPF and retirement.
- `GrowOrdinary` compounds, then pays. This is the ordinary-annuity factor
  used by the goal inversions.
- `Outstanding` is the loan balance under monthly EMIs.

Each closed-form expression in the source is proved equal to its loop, or
proved to invert it.

The source and its own documentation disagree in two places; the model
follows the code:

- The comment at `agents/personal_finance_team.py:296` speaks of a 50000
  self limit for a senior citizen. The function has no such input, so the
  self limit is always 25000.
- The goal SIP is often described as reaching the goal when fed back into
  the SIP projection. It does not: the inversion uses an ordinary annuity
  and the projection an annuity-due, so the projection overshoots by exactly
  the factor (1 + monthly rate) (`Goals.FlatProjectionOvershoots`).

## Model

| member | source | states |
|---|---|---|
| Common.RoundHalfEven | agents/investment_team.py:507-508 | Python's `round` to an integer: within half a unit of the value, and an exact tie goes to the even neighbour |
| TaxSlabs.OldRegimeTax | agents/personal_finance_team.py:730-738 | old-regime tax is zero exactly up to 250000 and never more than 30% of the income |
| TaxSlabs.NewRegimeTax | agents/personal_finance_team.py:741-753 | new-regime tax is zero exactly up to 300000 and never more than 30% of the income |
| TaxSlabs.OldRegimeIsMarginal | agents/personal_finance_team.py:730-738 | the closed-form brackets equal the marginal sum over the slabs (0/5/20/30% with edges 2.5L, 5L, 10L), so the constants 12500 and 112500 make the tax continuous at each edge |
| TaxSlabs.NewRegimeIsMarginal | agents/personal_finance_team.py:741-753 | the closed-form brackets equal the marginal sum over the slabs 0/5/10/15/20/30% with edges 3L, 7L, 10L, 12L, 15L |
| TaxSlabs.OldRegimeMonotoneContinuous | agents/personal_finance_team.py:730-738 | raising the income never lowers the old-regime tax, and raises it by at most 30% of the increase |
| TaxSlabs.NewRegimeMonotoneContinuous | agents/personal_finance_team.py:741-753 | raising the income never lowers the new-regime tax, and raises it by at most 30% of the increase |
| Regimes.Figures | agents/personal_finance_team.py:757-779 | the section 24 amount is the smaller of the interest paid and 200000; the old regime subtracts the eight deductions and floors at 0; the new regime subtracts only 75000 and floors at 0; both taxes times 1.04; the new regime charges nothing exactly up to a gross of 375000 |
| Regimes.CompareRegimesAsWritten | agents/personal_finance_team.py:781-809 | as written: recommends the new regime iff the old regime is cheaper, and reports new-minus-old as the saving |
| Regimes.CompareRegimes | agents/personal_finance_team.py:781-809 | corrected: recommends the new regime iff it is strictly cheaper, so the recommended regime never costs more than the other; a tie goes to the old regime; the saving is old minus new and is positive iff the new regime is recommended |
| Regimes.AsWrittenPicksCostlier | agents/personal_finance_team.py:781-782 | as written, the recommended regime always costs at least as much as the other; whenever the two taxes differ it disagrees with the corrected comparison, and its saving has the opposite sign |
| Regimes.AsWrittenCounterexample | agents/personal_finance_team.py:781-782 | gross 600000 with 150000 under 80C: old regime 7800 and new 11700; as written recommends new, corrected recommends old |
| Regimes.MoreDeductionsNeverRaiseOldTax | agents/personal_finance_team.py:759-770 | at the same gross income, more old-regime deductions never raise the old-regime tax |
| Deductions.Section80C | agents/personal_finance_team.py:245-272 | the eligible amount is the total or the 150000 cap, whichever is smaller; remaining is non-negative, is 0 once the total reaches the cap, and eligible + remaining = 150000 when the total is within it; fully utilised iff the total reaches the cap iff eligible equals the cap |
| Deductions.Section80CIsGreatest | agents/personal_finance_team.py:256-257 | no amount within both the total and the cap exceeds the eligible deduction, and any top-up that takes the total to the cap covers what remains |
| Deductions.Section80D | agents/personal_finance_team.py:296-320 | the parents' limit is 50000 iff the parents are senior citizens; the self, parents and checkup parts are each their premium or their cap, within both; the total is the self part plus checkup capped at 25000, plus the parents' part; the total is within the maximum possible |
| Deductions.Section80DIsGreatest | agents/personal_finance_team.py:300-308 | any split of the premiums that respects every part's premium and cap, with self and checkup together within 25000, sums to no more than the total eligible |
| Deductions.Nps80CCD | agents/personal_finance_team.py:342-356 | 80CCD(1B) is the contribution or 50000, whichever is smaller; 80CCD(2) is the employer contribution or 10% of gross, whichever is smaller; the total is their sum |
| Deductions.HraExemption | agents/personal_finance_team.py:386-409 | the exemption is non-negative, is either 0 or within all three limits (HRA received, rent less 10% of basic, 50%/40% of basic), and exemption + taxable HRA = HRA received |
| Deductions.HraExemptionIsGreatest | agents/personal_finance_team.py:392 | every non-negative amount within all three limits is at most the exemption, so the exemption is the largest such amount |
| Deductions.ClassifyProperty | agents/personal_finance_team.py:436-448 | a property is let out iff its lower-cased type is "let_out"; every other type is treated as self-occupied |
| Deductions.Section24Interest | agents/personal_finance_team.py:436-455 | let-out interest is deductible in full with no limit; self-occupied interest is reported with the 200000 limit, and the eligible amount is the interest or the limit, within both; the non-deductible part is what the interest exceeds the limit by; eligible + non-deductible = interest paid |
| Deductions.Section24IsGreatest | agents/personal_finance_team.py:436-439 | for self-occupied property no amount within both the interest and the 200000 limit exceeds the eligible deduction |
| Deductions.LtaExemption | agents/personal_finance_team.py:488-495 | no exemption for "international" travel (any case); otherwise the LTA or the fare, whichever is smaller; exemption + taxable = LTA |
| CapitalGains.Classify | agents/investment_team.py:681-792 | a loss or break-even; otherwise equity long-term iff held over 365 days, debt long-term iff held over 1095 days, short-term otherwise |
| CapitalGains.CapitalGainsTax | agents/investment_team.py:666-820 | errors for non-positive prices, then quantity, then negative holding; values and gain; a loss pays nothing and returns the whole sale value; a taxed gain pays 0 <= tax < gain at the class rate, so the sale still profits; the 125000 equity exemption splits the gain into exempt + taxable |
| CapitalGains.LongTermNeverCostsMore | agents/investment_team.py:698-798 | for the same trade, holding past the long-term threshold never costs more tax than selling short-term |
| CapitalGains.EquityExemptionShelters | agents/investment_team.py:703-709 | a long-term equity gain within 125000 pays no tax |
| Compounding.GrowClosedForm | agents/personal_finance_team.py:564-569 | the contribute-then-compound month loop equals the annuity-due closed form v(1+r)^n + p((1+r)^n-1)/r(1+r) |
| Compounding.GrowZeroRate | agents/personal_finance_team.py:571-574 | at rate 0 the loop is the balance plus the plain sum of contributions |
| Compounding.GrowSplit | agents/investment_team.py:875-883 | a + b months of the loop are a months followed by b months |
| Compounding.GrowExceedsContributions | agents/investment_team.py:880-883 | at a positive rate with positive contributions, the loop ends strictly above what was paid in |
| Compounding.GrowOrdinaryClosedForm | agents/investment_team.py:1017-1019 | the compound-then-contribute loop equals the ordinary-annuity closed form p((1+r)^n-1)/r |
| Compounding.OrdinaryAnnuityPayment | agents/investment_team.py:1016-1021 | the instalment the goal formulas compute grows, as an ordinary annuity, exactly into the target, and is positive for a positive target |
| Compounding.OrdinaryInverts | agents/investment_team.py:1017-1019 | the source's expression fv·r/((1+r)^n-1) is that instalment |
| Compounding.AnnuityDuePayment | agents/personal_finance_team.py:668-676 | the retirement SIP grows, paid at month starts, exactly into the corpus, and is positive for a positive corpus |
| Compounding.DueInverts | agents/personal_finance_team.py:671-674 | the source's expression corpus/(((1+r)^m-1)/r·(1+r)) is that instalment |
| Compounding.DueOvershootsOrdinary | agents/investment_team.py:880-883 | paying at month start yields exactly (1+r) times paying at month end |
| Compounding.Emi | agents/personal_finance_team.py:848-856 | at a non-negative rate over a positive number of months, the EMI pays the loan off exactly |
| Compounding.EmiAmortises | agents/personal_finance_team.py:849-854 | the closed-form EMI leaves a zero balance after the last instalment |
| Compounding.EmiPositiveRate | agents/personal_finance_team.py:848-854 | at a positive rate the denominator (1+r)^n - 1 is positive and the EMI is the closed form |
| Compounding.EmiPaysInterest | agents/personal_finance_team.py:848-854 | at a positive rate the instalments add up to strictly more than the loan |
| Compounding.LoanForEmi | agents/personal_finance_team.py:933-938 | the loan computed from an EMI is the one whose EMI is exactly that amount, and is positive for a positive EMI |
| Compounding.LoanInverts | agents/personal_finance_team.py:934-938 | the source's expression e((1+r)^n-1)/(r(1+r)^n) inverts the EMI formula |
| Compounding.DueFutureValueIsGrow | agents/personal_finance_team.py:564-570 | the EPF closed form (balance grown, plus the annuity-due of contributions) is the month-by-month simulation |
| Compounding.PresentValueIsLoanFormula | agents/personal_finance_team.py:657-659 | the retirement corpus formula a(1-(1+r)^-n)/r is the loan an EMI of a buys over n periods |
| Sip.Schedule | agents/investment_team.py:875-900 | the projection has exactly one row per year |
| Sip.ScheduleShape | agents/investment_team.py:875-900 | row i is year start + i, its instalment is the first stepped up i times, it pays twelve instalments, and its total return is value less total invested |
| Sip.ScheduleChains | agents/investment_team.py:875-897 | each row's total invested adds its year's instalments to the previous total, its value is the previous value run through twelve more months, and its return is the growth not paid in |
| Sip.ScheduleInvestedIncreases | agents/investment_team.py:880-892 | with a positive instalment and no step-down, cumulative investment strictly increases year on year |
| Sip.ScheduleProfits | agents/investment_team.py:875-895 | at a positive return every year ends worth strictly more than was paid in so far |
| Sip.ScheduleFlat | agents/investment_team.py:875-900 | without step-up, the last row is 12·years months of the loop and 12·years instalments |
| Sip.Discount | agents/investment_team.py:905-918 | the discounted amount, compounded back over the years, is the original amount |
| Sip.SipReturns | agents/investment_team.py:852-968 | the four validation errors in order; Ok iff all pass; the rows are the yearly step-up loop from year 1 at the monthly rate (their contents pinned by `Sip.ScheduleShape` and `Sip.ScheduleChains`); totals from the last row; the first five rows as the projection; the lump-sum and inflation figures discount exactly; the real return composes with 6% inflation into the nominal return |
| Sip.SipReturnsProfits | agents/investment_team.py:875-902 | a successful projection ends above what was invested, with positive returns, consecutive years, stepped instalments and strictly increasing investment |
| Sip.SipFlatClosedForm | agents/investment_team.py:870-902 | without step-up, total invested is monthly × 12 × years and maturity is the annuity-due loop over 12·years months |
| Sip.SteppedSipGrows | agents/investment_team.py:900 | a positive step-up strictly raises the instalment each year |
| Sip.FinalSipNoteOvershoots | agents/investment_team.py:956 | as written, the "Final SIP" note is the last year's instalment stepped up once more, so it exceeds the last instalment actually paid |
| Sip.FinalSipNoteCounterexample | agents/investment_team.py:956 | 5000 a month for 1 year at 10% step-up: the note reads 5500 while the only instalment paid was 5000 |
| Sip.FinalSipNoteAsWritten | agents/investment_team.py:956 | as written: the note is the starting instalment over zero years, otherwise the last year's instalment stepped up once more |
| Goals.DiscountInflate | agents/investment_team.py:1007 | the goal's inflated amount, discounted back at the inflation rate, is today's target |
| Goals.InflateDiscount | agents/investment_team.py:1184 | the lump sum invested today grows exactly into the remaining need |
| Goals.InflateMonotone | agents/investment_team.py:1154-1159 | inflating preserves order |
| Goals.InflateGrows | agents/investment_team.py:1007 | a non-negative rate never shrinks a non-negative amount |
| Goals.CommonGoalExamples | agents/investment_team.py:1073-1101 | the horizon is short iff at most 5 years, medium iff 6-10, long iff over 10 |
| Goals.GoalSipValidation | agents/investment_team.py:994-1004 | the four validation errors in order, and no error iff all inputs are in range |
| Goals.SipForGoalAsWritten | agents/investment_team.py:994-1069 | as written: a validation error, or else always the unbound `self` error, never a result |
| Goals.SipForGoal | agents/investment_team.py:1007-1061 | corrected: Ok iff the inputs validate; the future value discounts back to the target; the SIP grows as an ordinary annuity exactly into it and is positive; the total invested is the SIP times the months; the step-up alternative starts at 70% and its final SIP is the start stepped up 10% for years-1 years |
| Goals.StepUpFinalSip | agents/investment_team.py:1027-1054 | the step-up projection the goal SIP runs succeeds, and its final year's instalment is the start stepped up years-1 times |
| Goals.OrdinaryEarns | agents/investment_team.py:1023-1024 | over two or more months at a positive rate, the target exceeds the instalments paid, so the expected returns are positive |
| Goals.DueIsOrdinaryGrown | agents/investment_team.py:880-883 | the projection's month loop ends at (1+r) times the ordinary-annuity value of the same instalment |
| Goals.FlatProjectionOvershoots | agents/investment_team.py:1017-1019 | feeding the goal SIP into the flat SIP projection succeeds and matures at exactly (1 + monthly rate) times the goal |
| Goals.SipForGoalCounterexample | agents/investment_team.py:1069 | 50 lakh in 15 years at 12% and 6% inflation: as written fails with the unbound `self`, corrected succeeds |
| Goals.Strategy | agents/investment_team.py:1187-1217 | low risk iff at most 3 years, moderate iff 4-7, high otherwise; equity 30/60/80, and debt + equity = 100 |
| Goals.StrategyEquityMonotone | agents/investment_team.py:1187-1217 | a longer horizon never recommends less equity |
| Goals.GoalTemplate | agents/investment_team.py:1315-1386 | the first matching template in the source's order: higher education iff 20-60 lakh over 10+ years; marriage, retirement, home and short-term each iff their band matches and no earlier band does; wealth creation iff no band matches |
| Goals.HomeTemplateExample | agents/investment_team.py:1354-1356 | 12 lakh over 6 years falls in no earlier band and selects the home down-payment template |
| Goals.MarriageTemplateReach | agents/investment_team.py:1320-1341 | the marriage template is only reached below 20 lakh or under 10 years, since higher education is checked first |
| Goals.Remaining | agents/investment_team.py:1162 | the remaining need is non-negative, zero iff the existing corpus covers the goal, and otherwise exactly fills the gap |
| Goals.GoalCorpus | agents/investment_team.py:1138-1310 | the five validation errors in order; Ok iff all pass; the goal and the existing corpus both discount back; the SIP is zero iff nothing remains, else grows exactly into what remains; the SIP investment is the SIP times the months; the lump sum grows into it; strategy and template; shortfall iff a positive corpus falls short, surplus iff a positive corpus covers the goal, each with its amount and with what the existing corpus will grow to |
| Goals.SipPlan | agents/investment_team.py:1165-1181 | the SIP is positive iff something remains and grows exactly into it; the amount invested is the SIP times the months; the returns are what remains less what is invested |
| Goals.StepUpPlan | agents/investment_team.py:1220-1231 | the step-up start is 70% of the SIP; its final instalment is the stepped-up start when the SIP is positive, else 0 |
| Goals.AlertFor | agents/investment_team.py:1297-1310 | no alert without an existing corpus; shortfall and surplus are exclusive; the shortfall reports the remaining need and the surplus the non-negative excess; both report what the existing corpus will grow to |
| Goals.StepUpFinal | agents/investment_team.py:1257-1262 | the step-up option's final monthly SIP is the starting SIP stepped up 10% a year for years-1 years |
| Goals.GoalCorpusCoversGoal | agents/investment_team.py:1157-1172 | the grown existing corpus plus the SIP's value reaches the goal, exactly when a SIP is needed |
| Goals.MoreCorpusNeverRaisesRemaining | agents/investment_team.py:1157-1162 | a larger existing corpus never raises the remaining need |
| Retirement.EpfVpf | agents/personal_finance_team.py:547-578 | basic capped at 15000; the 1250 pension cap never binds below that ceiling; employee and employer shares on the capped basic and VPF on the whole basic; at a positive rate the maturity is the month-by-month simulation; otherwise nothing is earned |
| Retirement.EpfClosedFormIsGrow | agents/personal_finance_team.py:562-570 | over a non-negative horizon the source's closed form is the simulation |
| Retirement.EpfEarnsInterest | agents/personal_finance_team.py:577-578 | a positive rate over at least a year with positive contributions earns positive interest |
| Retirement.EpfZeroRateIsSimulation | agents/personal_finance_team.py:571-574 | at rate 0 the plain sum is also the simulation |
| Retirement.CorpusFor | agents/personal_finance_team.py:654-661 | at a non-negative return the corpus is exhausted exactly by the last yearly withdrawal; at a non-positive return it is the plain sum of the withdrawals |
| Retirement.RetirementCorpus | agents/personal_finance_team.py:630-676 | the already-retired and life-expectancy errors; Ok iff current < retirement < life expectancy; expenses inflated over the years to retirement; at a non-negative return the corpus is exhausted exactly by the last withdrawal, at a non-positive one it is the plain sum of the withdrawals; the SIP at 1% a month grows exactly into the corpus |
| Retirement.CorpusPositive | agents/personal_finance_team.py:657-661 | positive expenses at a non-negative return need a positive corpus |
| Retirement.RetirementNeedsSaving | agents/personal_finance_team.py:648-676 | positive expenses and a non-negative return need a positive corpus and a positive SIP |
| AgeAllocation.ParseRisk | agents/investment_team.py:468-472 | each risk level is recognised iff its lower-cased spelling matches; anything else is rejected |
| AgeAllocation.ParseRule | agents/investment_team.py:474-478 | "auto" iff the lower-cased text is auto; the fixed rule 100, 110 or 120 iff the lower-cased text spells that number; anything else is rejected |
| AgeAllocation.SelectRule | agents/investment_team.py:481-494 | a fixed rule is kept; auto picks 100 for conservative, 110 for moderate, and 120 under 40 else 110 for aggressive |
| AgeAllocation.EquityFor | agents/investment_team.py:497-500 | rule minus age, clamped into [20, 80] |
| AgeAllocation.SplitWithGold | agents/investment_team.py:504-513 | after the fix-up, equity + debt + gold = 100; each share is within half a point of its exact value; neither share vanishes inside the equity band |
| AgeAllocation.BreakdownsAreComplete | agents/investment_team.py:516-551 | each equity, debt and gold sub-breakdown adds to 100% |
| AgeAllocation.Scale | agents/investment_team.py:575-585 | each sub-allocation is its weight times the class share over 100 |
| AgeAllocation.DescribeRule | agents/investment_team.py:599-607 | each comparison row carries the clamped equity with debt = 100 - equity, in the style of its rule |
| AgeAllocation.AgeBasedAllocation | agents/investment_team.py:465-596 | age, risk and rule errors in order; Ok iff all valid; the selected rule, clamped equity, gold 5 under 40 else 7, equity + debt + gold = 100 with both positive, the scaled breakdowns and the three comparisons |
| AgeAllocation.EquityNonIncreasingWithAge | agents/investment_team.py:481-500 | for the same choice and risk, an older investor never gets more equity |
| AgeAllocation.ComparisonsOrdered | agents/investment_team.py:554-562 | the 100, 110 and 120 rules give non-decreasing equity |
| AgeAllocation.RoundingFixUpExample | agents/investment_team.py:507-513 | at 70% equity and 5% gold the two roundings give 66 + 28 + 5 = 99, and the fix-up lifts equity to 67 |
| Rebalancing.ActionFor | agents/investment_team.py:1453-1460 | sell equity iff the deviation exceeds 5, sell debt iff it is below -5, no rebalancing iff its magnitude is at most 5 |
| Rebalancing.SuggestRebalancing | agents/investment_team.py:1413-1496 | the five errors in order; Ok iff all pass; the equity and debt deviations are the current percentages less the recommended ones and add to the declared total's miss of 100; the current and recommended values are those percentages of the portfolio and the recommended ones split it; current + change = recommended; a sale has a negative change and a purchase a positive one |
| Rebalancing.ValuesSplit | agents/investment_team.py:1446-1447 | two shares adding to 100 split the portfolio exactly |
| Rebalancing.ChangeSign | agents/investment_team.py:1449-1450 | moving to a lower share is a sale and to a higher one a purchase |
| Rebalancing.RebalancingSelfFinancing | agents/investment_team.py:1443-1450 | when the declared split is exactly 100, the equity change is the negative of the debt change |
| Portfolio.ClassifyCap | agents/investment_team.py:379-384 | large iff at least 20000 crore, mid iff from 5000 crore up to that, small otherwise |
| Portfolio.AddToCap | agents/investment_team.py:398 | the value goes into its class's bucket only, and the bucket total grows by it |
| Portfolio.AddToSectorShape | agents/investment_team.py:399-401 | the sector is named once more: updated in place if present, appended at the end if new |
| Portfolio.AddToSectorFacts | agents/investment_team.py:399-401 | sectors stay distinct and the sector total grows by the value |
| Portfolio.Step | agents/investment_team.py:356-409 | a non-object is skipped; every object adds one record: a missing-symbol record for an empty symbol, a fetch-error record for a failed fetch, neither changing any amount; a fetched holding adds its valued record and price × quantity to the total, its cap bucket and its sector |
| Portfolio.StepKeepsBalanced | agents/investment_team.py:375-401 | each step keeps the cap buckets and the sector amounts adding up to the total, and a valued holding's sector appears afterwards |
| Portfolio.Aggregate | agents/investment_team.py:349-409 | after the loop both breakdowns add up to the total, sectors are distinct, and there is one record per object |
| Portfolio.AggregateIsReference | agents/investment_team.py:349-401 | the loop's total, each cap bucket and each sector's amount equal the sums over the valued holdings, computed independently of the loop |
| Portfolio.AddToSectorAmount | agents/investment_team.py:399-401 | adding a value to a sector raises that sector's amount by the value and leaves every other sector's amount alone |
| Portfolio.SectorPercents | agents/investment_team.py:419-423 | each sector keeps its name and its amount becomes a percentage of the total |
| Portfolio.AnalyzePortfolio | agents/investment_team.py:341-427 | malformed JSON, a non-list and an empty list are errors; Ok otherwise, with one record per object and the loop's total; a non-positive total leaves the balanced amounts |
| Portfolio.SectorPercentsTotal | agents/investment_team.py:419-423 | converting every sector to a percentage converts their sum |
| Portfolio.PercentagesAddUp | agents/investment_team.py:412-423 | for a positive total, the cap percentages and the sector percentages each add up to 100 |
| Affordability.Renting | agents/personal_finance_team.py:865-869 | the rent after n years is rent·(1+q)^n and the rent paid is twelve months of the geometric series; without increases, rent × 12 × years |
| Affordability.RentClosedForm | agents/personal_finance_team.py:865-869 | the rent loop's closed forms from any starting point |
| Affordability.RentFlat | agents/personal_finance_team.py:865-869 | without increases the loop pays twelve months of the same rent a year and leaves the rent unchanged |
| Affordability.BuyVsRent | agents/personal_finance_team.py:841-895 | a zero tenure, or a property that loses all its value over a negative period, divides by zero; otherwise down payment + loan = price, the EMI pays the loan off, the future value compounds the appreciation, or over a negative period grows back to the price, the rent figures are the rent loop's, and buying is chosen iff strictly cheaper, with the absolute difference as savings |
| Affordability.Appreciated | agents/personal_finance_team.py:860-862 | the price compounded at the appreciation rate over a non-negative period; over a negative period the result grown back over as many years is the price |
| Affordability.AffordableEmiAt | agents/personal_finance_team.py:916-940 | the room left is clamped at 0; over-leveraged iff negative, tight iff under 30% of income, comfortable otherwise; the eligible loan's EMI is exactly the room left; the loan is positive iff the room is |
| Affordability.AffordableEmi | agents/personal_finance_team.py:916-940 | at the fixed 8.5% over 240 months: the room left is clamped at 0, over-leveraged iff negative, and the loan is positive iff the room is |
| Affordability.EligibleLoan | agents/personal_finance_team.py:933-940 | the loan's EMI is exactly the amount available, and the loan is positive iff that amount is |
| Affordability.ZeroLoanNoEmi | agents/personal_finance_team.py:939-940 | a zero loan has a zero EMI, so the no-room branch is consistent with the inversion |
| Affordability.EligibilityRoundTrip | agents/personal_finance_team.py:933-938 | buying with the eligible loan and no down payment succeeds, and its EMI is exactly the amount the FOIR left |
| Affordability.EligibilityFallsWithDebt | agents/personal_finance_team.py:916-940 | more existing EMIs never raise the eligible loan |
| ThumbRules.LifeInsuranceCoverage | agents/personal_finance_team.py:55-57 | the minimum is 10x income, the maximum 20x, and the recommended cover is the multiplier times income |
| ThumbRules.CoverageWithinBand | agents/personal_finance_team.py:55-57 | a multiplier within 10-20 recommends cover within the band |
| ThumbRules.BaseMonths | agents/personal_finance_team.py:87-93 | 3 months iff the lower-cased stability is "high", 12 iff "low", otherwise 6 |
| ThumbRules.EmergencyFund | agents/personal_finance_team.py:93-101 | base months plus one per dependent, capped at 12, and at least 3 for a non-negative number of dependents (the source does not validate the count); the amount is expenses times months |
| ThumbRules.EmergencyMonthsMonotone | agents/personal_finance_team.py:96-99 | more dependents never shorten the cushion |
| ThumbRules.EmergencyFundIgnoresCase | agents/personal_finance_team.py:93 | the stability label is read regardless of case |
| ThumbRules.StabilityOrdersMonths | agents/personal_finance_team.py:87-99 | less stable jobs never need fewer months |
| ThumbRules.SpendingRatio | agents/personal_finance_team.py:130-141 | a zero income divides by zero; otherwise the three shares add to 100%, and the status is healthy iff savings and investment reach 20% |
| ThumbRules.HealthyMeansSavingAFifth | agents/personal_finance_team.py:141 | for a positive income, healthy iff savings plus investments are at least a fifth of income |
| ThumbRules.SpendingBenchmark | agents/personal_finance_team.py:205-219 | found iff the lower-cased category is one of the six; otherwise the error lists the six; the figure is the group's entry for that category |
| ThumbRules.UnknownGroupReadsThirties | agents/personal_finance_team.py:205 | an age group without its own table reads the 30-40 table |
| ThumbRules.BenchmarksWithinSpendingShare | agents/personal_finance_team.py:170-203 | in every group the six categories add to under 80% and groceries is the largest |

## Left out

- Market-data and index tools (`agents/investment_team.py:40-323`) and the per-symbol fetch in the portfolio analysis. These are network I/O. Each symbol's fetch result (price, market cap, sector, or a failure) is an input.
- The agent, team and knowledge-base wiring, the language-model client, settings loading, the module loader, the bootstrap and the server smoke test. None of it computes anything.
- IEEE floating point and the rounding of outputs (`round(x, 2)`, and `round(x, 1)` on the allocation breakdowns). Every figure is an exact `real`. The one rounding that decides a value, the integer `round` of the gold split, is modelled as round-half-to-even.
- Human-readable text: notes, recommendations, rule rationales (`_get_rule_rationale`), formatted percentage strings, goal-template tips and instrument lists. Templates and horizons are enumerations.
- `str.lower()` beyond ASCII: `Lower` maps only A-Z.
- The catch-all `except Exception` of the portfolio analysis turns an unexpected failure into an error message. Nothing in the model can fail that way.
- The `@tool` decorator. The tools that call other tools do so as plain function calls.
- The lump-sum comparison (`agents/investment_team.py:909-911`) and `approximate_xirr`. They are computed but never returned.
- Portfolio.Step: models a fetch as all-or-nothing. In the source, a market cap of `None` fails at the comparison on line 379 after line 376 has already added the value to the total, so the error record comes with a counted value.
- Portfolio.AnalyzePortfolio: for a positive total it states the conversion to percentages only through `Portfolio.PercentagesAddUp`, not field by field.
- Affordability.AffordableEmi: states only the clamping, the over-leveraged status and the loan's sign at the source's fixed 8.5% over 240 months. `Affordability.AffordableEmiAt` states the full contract for any positive rate and tenure. Stating it at the literal rate makes every proof unfold a 240-fold power.
- Retirement.EpfVpf: for a negative horizon at a positive rate, the maturity is the closed form with a negative power. No simulation is stated for it, since a negative number of months has no loop.
- The SIP fallback that divides the corpus by the months to retirement (`agents/personal_finance_team.py:675-676`) is unreachable. The monthly rate is fixed at 1% and the years to retirement are checked positive first.
- The generic statement that every piecewise-linear slab schedule is monotone and continuous is not made. Each of the two schedules is proved marginal and monotone directly.

## Findings

| source | as written | input that shows it | evidently intended | confidence | as-written member | corrected member |
|---|---|---|---|---|---|---|
| agents/personal_finance_team.py:781-808 | `savings = old - new` and the new regime is recommended when `savings < 0`, i.e. when the old regime is cheaper; `savings_with_new_regime` reports new minus old | gross 600000, section 80C 150000, other inputs at their defaults: old 7800, new 11700, recommends the new regime | recommend the cheaper regime and report old minus new as the saving | high, not executed | Regimes.CompareRegimesAsWritten | Regimes.CompareRegimes |
| agents/investment_team.py:956 | the "Final SIP (Year N)" note prints the instalment after the loop, which has been stepped up once past the last year | 5000 a month, 12%, 1 year, 10% step-up: the note says 5500, the only instalment paid was 5000 | show the last year's instalment | high, not executed | Sip.FinalSipNoteAsWritten | Sip.SipReturns |
| agents/investment_team.py:1069 | the module-level `calculate_sip_for_goal` calls `self._get_common_goal_examples`; `self` is unbound, so every valid input raises | target 5000000, 15 years, 12%, 6% inflation | call the module-level `_get_common_goal_examples(years)` | high, not executed | Goals.SipForGoalAsWritten | Goals.SipForGoal |
