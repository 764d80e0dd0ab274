/** Month-by-month compounding shared by the projection and affordability
    engines. Two timings appear in the calculators:
    - `Grow`: contribute, then compound (the SIP loop, EPF, retirement SIP);
    - `GrowOrdinary`: compound, then contribute (the ordinary-annuity factor
      ((1+r)^n - 1)/r used by the goal inversions, and loan amortisation).
    The payment functions are stated against these simulations, not against
    their closed forms. */
module Compounding {
  import opened Common

  /** Monthly rate of an annual percentage return. */
  function MonthlyRate(annualPercent: real): real
  {
    annualPercent / 12.0 / 100.0
  }

  /** Value after `n` months when `p` is added at the start of each month and
      the month's rate `r` is then applied. */
  function Grow(v: real, p: real, r: real, n: nat): real
    decreases n
  {
    if n == 0 then v else Grow((v + p) * (1.0 + r), p, r, n - 1)
  }

  /** Value after `n` months when the month's rate `r` is applied first and
      `p` is added at the end of the month. */
  function GrowOrdinary(v: real, p: real, r: real, n: nat): real
    decreases n
  {
    if n == 0 then v else GrowOrdinary(v * (1.0 + r) + p, p, r, n - 1)
  }

  /** Loan balance after `k` monthly instalments `e`, interest charged first. */
  function Outstanding(b: real, r: real, e: real, k: nat): real
    decreases k
  {
    if k == 0 then b else Outstanding(b * (1.0 + r) - e, r, e, k - 1)
  }

  /** Paying at the start of the month is paying p·(1+r) at its end. */
  lemma {:induction false} GrowAsOrdinary(v: real, p: real, r: real, n: nat)
    ensures Grow(v, p, r, n) == GrowOrdinary(v, p * (1.0 + r), r, n)
    decreases n
  {
    if n > 0 {
      assert (v + p) * (1.0 + r) == v * (1.0 + r) + p * (1.0 + r);
      GrowAsOrdinary((v + p) * (1.0 + r), p, r, n - 1);
    }
  }

  /** A balance repaid by instalments is an ordinary annuity with a negative payment. */
  lemma {:induction false} OutstandingAsOrdinary(b: real, r: real, e: real, k: nat)
    ensures Outstanding(b, r, e, k) == GrowOrdinary(b, -e, r, k)
    decreases k
  {
    if k > 0 {
      OutstandingAsOrdinary(b * (1.0 + r) - e, r, e, k - 1);
    }
  }

  /** Closed form of the ordinary annuity, multiplied through by r:
      r·FV = r·v·(1+r)^n + p·((1+r)^n - 1). */
  lemma {:induction false} GrowOrdinaryClosedForm(v: real, p: real, r: real, n: nat)
    ensures r * GrowOrdinary(v, p, r, n) == r * v * Pow(1.0 + r, n) + p * (Pow(1.0 + r, n) - 1.0)
    decreases n
  {
    if n > 0 {
      var w := v * (1.0 + r) + p;
      assert GrowOrdinary(v, p, r, n) == GrowOrdinary(w, p, r, n - 1);
      GrowOrdinaryClosedForm(w, p, r, n - 1);
      ClosedFormStep(v, p, r, Pow(1.0 + r, n - 1), GrowOrdinary(w, p, r, n - 1));
    }
  }

  /** The algebra of one month in the closed form, with y = (1+r)^(n-1). */
  lemma ClosedFormStep(v: real, p: real, r: real, y: real, g: real)
    requires r * g == r * (v * (1.0 + r) + p) * y + p * (y - 1.0)
    ensures r * g == r * v * ((1.0 + r) * y) + p * ((1.0 + r) * y - 1.0)
  {
    calc {
      r * (v * (1.0 + r) + p) * y + p * (y - 1.0);
      r * v * ((1.0 + r) * y) + r * p * y + p * y - p;
      r * v * ((1.0 + r) * y) + p * ((1.0 + r) * y - 1.0);
    }
  }

  lemma {:induction false} GrowOrdinaryZeroRate(v: real, p: real, n: nat)
    ensures GrowOrdinary(v, p, 0.0, n) == v + n as real * p
    decreases n
  {
    if n > 0 {
      GrowOrdinaryZeroRate(v + p, p, n - 1);
    }
  }

  /** Closed form of the contribute-then-compound loop, multiplied through by r:
      r·FV = r·v·(1+r)^n + p·((1+r)^n - 1)·(1+r). */
  lemma GrowClosedForm(v: real, p: real, r: real, n: nat)
    ensures r * Grow(v, p, r, n) == r * v * Pow(1.0 + r, n) + p * (Pow(1.0 + r, n) - 1.0) * (1.0 + r)
  {
    GrowAsOrdinary(v, p, r, n);
    GrowOrdinaryClosedForm(v, p * (1.0 + r), r, n);
  }

  /** The closed form started from an empty portfolio. */
  lemma GrowFromZeroClosedForm(p: real, r: real, n: nat)
    ensures r * Grow(0.0, p, r, n) == p * (Pow(1.0 + r, n) - 1.0) * (1.0 + r)
  {
    GrowClosedForm(0.0, p, r, n);
    assert r * 0.0 * Pow(1.0 + r, n) == 0.0;
  }

  lemma {:induction false} GrowZeroRate(v: real, p: real, n: nat)
    ensures Grow(v, p, 0.0, n) == v + n as real * p
    decreases n
  {
    if n > 0 {
      GrowZeroRate(v + p, p, n - 1);
    }
  }

  /** Running the loop for a + b months is running it for a, then for b. */
  lemma {:induction false} GrowSplit(v: real, p: real, r: real, a: nat, b: nat)
    ensures Grow(v, p, r, a + b) == Grow(Grow(v, p, r, a), p, r, b)
    decreases a
  {
    if a > 0 {
      GrowSplit((v + p) * (1.0 + r), p, r, a - 1, b);
    }
  }

  /** With a positive rate and positive contributions the loop ends strictly
      above the amount paid in. */
  lemma {:induction false} GrowExceedsContributions(v: real, p: real, r: real, n: nat)
    requires v >= 0.0 && p > 0.0 && r > 0.0 && n >= 1
    ensures Grow(v, p, r, n) > v + n as real * p
    decreases n
  {
    var w := (v + p) * (1.0 + r);
    assert w == v + p + (v + p) * r;
    assert (v + p) * r > 0.0;
    if n > 1 {
      GrowExceedsContributions(w, p, r, n - 1);
    }
  }

  /** Compounding first and contributing after still ends strictly above the
      amount paid in once there is a positive balance to compound. */
  lemma {:induction false} GrowOrdinaryExceedsContributions(v: real, p: real, r: real, n: nat)
    requires v > 0.0 && p >= 0.0 && r > 0.0 && n >= 1
    ensures GrowOrdinary(v, p, r, n) > v + n as real * p
    decreases n
  {
    var w := v * (1.0 + r) + p;
    assert w == v + p + v * r;
    assert v * r > 0.0;
    if n > 1 {
      GrowOrdinaryExceedsContributions(w, p, r, n - 1);
    }
  }

  lemma CancelFactor(c: real, a: real, b: real)
    requires c != 0.0 && c * a == c * b
    ensures a == b
  {
    assert a == (c * a) / c;
  }

  /** The level monthly payment that, paid at month ends for n months, grows to
      `fv` — the inversion of FV = P·((1+r)^n - 1)/r, and FV/n at a zero rate. */
  function OrdinaryAnnuityPayment(fv: real, r: real, n: nat): (p: real)
    requires r >= 0.0 && n >= 1
    ensures GrowOrdinary(0.0, p, r, n) == fv
    ensures fv > 0.0 ==> p > 0.0
  {
    if r > 0.0 then
      PowAboveOne(1.0 + r, n);
      var p := fv * r / (Pow(1.0 + r, n) - 1.0);
      OrdinaryInverts(fv, r, n, p);
      p
    else
      var p := fv / n as real;
      GrowOrdinaryZeroRate(0.0, p, n);
      p
  }

  lemma OrdinaryInverts(fv: real, r: real, n: nat, p: real)
    requires r > 0.0 && Pow(1.0 + r, n) > 1.0
    requires p == fv * r / (Pow(1.0 + r, n) - 1.0)
    ensures GrowOrdinary(0.0, p, r, n) == fv
    ensures fv > 0.0 ==> p > 0.0
  {
    var x := Pow(1.0 + r, n);
    GrowOrdinaryClosedForm(0.0, p, r, n);
    assert r * 0.0 * x == 0.0;
    assert p * (x - 1.0) == fv * r;
    CancelFactor(r, GrowOrdinary(0.0, p, r, n), fv);
  }

  /** The level monthly payment that, paid at month starts for n months, grows
      to `fv` — the inversion of FV = P·((1+r)^n - 1)/r·(1+r). */
  function AnnuityDuePayment(fv: real, r: real, n: nat): (p: real)
    requires r >= 0.0 && n >= 1
    ensures Grow(0.0, p, r, n) == fv
    ensures fv > 0.0 ==> p > 0.0
  {
    if r > 0.0 then
      PowAboveOne(1.0 + r, n);
      var p := fv / ((Pow(1.0 + r, n) - 1.0) / r * (1.0 + r));
      DueInverts(fv, r, n, p);
      p
    else
      var p := fv / n as real;
      GrowZeroRate(0.0, p, n);
      p
  }

  lemma DueInverts(fv: real, r: real, n: nat, p: real)
    requires r > 0.0 && Pow(1.0 + r, n) > 1.0
    requires p == fv / ((Pow(1.0 + r, n) - 1.0) / r * (1.0 + r))
    ensures Grow(0.0, p, r, n) == fv
    ensures fv > 0.0 ==> p > 0.0
  {
    var x := Pow(1.0 + r, n);
    var factor := (x - 1.0) / r * (1.0 + r);
    assert factor > 0.0;
    assert p * factor == fv;
    assert p * (x - 1.0) * (1.0 + r) == r * fv by {
      assert factor * r == (x - 1.0) * (1.0 + r);
    }
    GrowClosedForm(0.0, p, r, n);
    assert r * 0.0 * x == 0.0;
    CancelFactor(r, Grow(0.0, p, r, n), fv);
  }

  /** Paying the same amount at month starts instead of month ends ends one
      month's growth higher. */
  lemma DueOvershootsOrdinary(p: real, r: real, n: nat)
    ensures Grow(0.0, p, r, n) == GrowOrdinary(0.0, p, r, n) * (1.0 + r)
  {
    GrowAsOrdinary(0.0, p, r, n);
    ScaleOrdinary(0.0, p, r, n, 1.0 + r, 0.0, p * (1.0 + r));
  }

  lemma {:induction false} ScaleOrdinary(v: real, p: real, r: real, n: nat, c: real, vc: real, pc: real)
    requires vc == v * c && pc == p * c
    ensures GrowOrdinary(vc, pc, r, n) == GrowOrdinary(v, p, r, n) * c
    decreases n
  {
    if n > 0 {
      var w := v * (1.0 + r) + p;
      var wc := vc * (1.0 + r) + pc;
      assert wc == w * c;
      ScaleOrdinary(w, p, r, n - 1, c, wc, pc);
    }
  }

  /** The amortised instalment L·r·x / (x - 1) for x = (1+r)^n. */
  function EmiFormula(loan: real, r: real, x: real): real
    requires x != 1.0
  {
    loan * r * x / (x - 1.0)
  }

  /** The standard amortised instalment, or L/n when the rate is not
      positive; n = 0 divides by zero in the source. */
  function Emi(loan: real, r: real, n: int): (e: real)
    requires n != 0
    ensures r >= 0.0 && n >= 1 ==> Outstanding(loan, r, e, n) == 0.0
  {
    if r > 0.0 then
      EmiDenominator(r, n);
      var e := EmiFormula(loan, r, PowZ(1.0 + r, n));
      if n >= 1 then
        EmiAmortises(loan, r, n, PowZ(1.0 + r, n), e);
        e
      else e
    else
      var e := loan / n as real;
      if r == 0.0 && n >= 1 then
        OutstandingAsOrdinary(loan, 0.0, e, n);
        GrowOrdinaryZeroRate(loan, -e, n);
        e
      else e
  }

  lemma EmiDenominator(r: real, n: int)
    requires r > 0.0 && n != 0
    ensures PowZ(1.0 + r, n) != 1.0
  {
    if n > 0 {
      PowAboveOne(1.0 + r, n);
    } else {
      PowAboveOne(1.0 + r, -n);
      assert PowZ(1.0 + r, n) == 1.0 / Pow(1.0 + r, -n);
    }
  }

  lemma EmiAmortises(loan: real, r: real, n: nat, x: real, e: real)
    requires r > 0.0 && n >= 1
    requires x == Pow(1.0 + r, n) && x != 1.0
    requires e == EmiFormula(loan, r, x)
    ensures Outstanding(loan, r, e, n) == 0.0
  {
    OutstandingAsOrdinary(loan, r, e, n);
    GrowOrdinaryClosedForm(loan, -e, r, n);
    BalanceVanishes(loan, r, Pow(1.0 + r, n), e, GrowOrdinary(loan, -e, r, n));
  }

  lemma BalanceVanishes(loan: real, r: real, x: real, e: real, b: real)
    requires r > 0.0 && x != 1.0
    requires e == EmiFormula(loan, r, x)
    requires r * b == r * loan * x + (-e) * (x - 1.0)
    ensures b == 0.0
  {
    assert e * (x - 1.0) == loan * r * x;
    assert r * b == r * 0.0;
    CancelFactor(r, b, 0.0);
  }

  /** At a positive rate and a positive term the instalment is the formula at (1+r)^n. */
  lemma EmiPositiveRate(loan: real, r: real, n: nat)
    requires r > 0.0 && n >= 1
    ensures Pow(1.0 + r, n) > 1.0
    ensures Emi(loan, r, n) == EmiFormula(loan, r, Pow(1.0 + r, n))
  {
    PowAboveOne(1.0 + r, n);
    assert PowZ(1.0 + r, n) == Pow(1.0 + r, n);
  }

  /** Total instalments exceed the principal whenever the rate is positive. */
  lemma EmiPaysInterest(loan: real, r: real, n: nat)
    requires loan > 0.0 && r > 0.0 && n >= 1
    ensures Emi(loan, r, n) * n as real > loan
  {
    EmiPositiveRate(loan, r, n);
    GrowthBelowLinearBound(r, n);
    InstalmentsExceedLoan(loan, r, n as real, Pow(1.0 + r, n), Emi(loan, r, n));
  }

  lemma InstalmentsExceedLoan(loan: real, r: real, m: real, x: real, e: real)
    requires loan > 0.0 && x > 1.0 && x - 1.0 < m * r * x
    requires e == EmiFormula(loan, r, x)
    ensures e * m > loan
  {
    var k := m * r * x;
    var q := k / (x - 1.0);
    assert q * (x - 1.0) == k;
    assert (q - 1.0) * (x - 1.0) == k - (x - 1.0);
    PositiveFactor(q - 1.0, x - 1.0);
    assert e * (x - 1.0) == loan * r * x;
    assert (x - 1.0) * (e * m) == m * (e * (x - 1.0));
    assert (x - 1.0) * (loan * q) == loan * k;
    assert (x - 1.0) * (e * m) == (x - 1.0) * (loan * q);
    CancelFactor(x - 1.0, e * m, loan * q);
    assert loan * q - loan == loan * (q - 1.0);
    assert loan * (q - 1.0) > 0.0;
  }

  lemma PositiveFactor(a: real, b: real)
    requires b > 0.0 && a * b > 0.0
    ensures a > 0.0
  {
  }

  /** (1+r)^n - 1 < n·r·(1+r)^n for r > 0 and n ≥ 1. */
  lemma {:induction false} GrowthBelowLinearBound(r: real, n: nat)
    requires r > 0.0 && n >= 1
    ensures Pow(1.0 + r, n) - 1.0 < n as real * r * Pow(1.0 + r, n)
    decreases n
  {
    if n > 1 {
      GrowthBelowLinearBound(r, n - 1);
      PowAboveOne(1.0 + r, n - 1);
      LinearBoundStep(r, (n - 1) as real, Pow(1.0 + r, n - 1));
    }
  }

  lemma LinearBoundStep(r: real, m: real, y: real)
    requires r > 0.0 && y > 1.0 && y - 1.0 < m * r * y
    ensures (1.0 + r) * y - 1.0 < (m + 1.0) * r * ((1.0 + r) * y)
  {
    var x := 1.0 + r;
    assert x * y - 1.0 == x * (y - 1.0) + r;
    assert x * (y - 1.0) < x * (m * r * y);
    assert r < r * (x * y);
  }

  /** The largest loan whose instalment over n months at rate r is `e`:
      e·((1+r)^n - 1) / (r·(1+r)^n). */
  function LoanForEmi(e: real, r: real, n: nat): (loan: real)
    requires r > 0.0 && n >= 1
    ensures Emi(loan, r, n) == e
    ensures e > 0.0 ==> loan > 0.0
  {
    PowAboveOne(1.0 + r, n);
    var loan := LoanFormula(e, r, Pow(1.0 + r, n));
    EmiPositiveRate(loan, r, n);
    loan
  }

  function LoanFormula(e: real, r: real, x: real): (loan: real)
    requires r > 0.0 && x > 1.0
    ensures EmiFormula(loan, r, x) == e
    ensures e > 0.0 ==> loan > 0.0
  {
    assert r * x > 0.0;
    var loan := e * (x - 1.0) / (r * x);
    LoanInverts(e, r, x, loan);
    loan
  }

  lemma LoanInverts(e: real, r: real, x: real, loan: real)
    requires r > 0.0 && x > 1.0
    requires loan == e * (x - 1.0) / (r * x)
    ensures EmiFormula(loan, r, x) == e
    ensures e > 0.0 ==> loan > 0.0
  {
    assert r * x > 0.0;
    assert loan * (r * x) == e * (x - 1.0);
    var d := loan * r * x / (x - 1.0);
    assert d * (x - 1.0) == loan * r * x;
    assert (x - 1.0) * d == (x - 1.0) * e;
    CancelFactor(x - 1.0, d, e);
  }

  /** The source's closed form of an annuity-due with an opening balance,
      V·x + P·((x − 1)/r)·(1 + r) for x = (1+r)^n. */
  function DueFutureValue(v: real, p: real, r: real, x: real): real
    requires r != 0.0
  {
    v * x + p * ((x - 1.0) / r) * (1.0 + r)
  }

  /** The closed form is the month-by-month simulation. */
  lemma DueFutureValueIsGrow(v: real, p: real, r: real, n: nat)
    requires r > 0.0
    ensures DueFutureValue(v, p, r, Pow(1.0 + r, n)) == Grow(v, p, r, n)
  {
    var x := Pow(1.0 + r, n);
    var q := (x - 1.0) / r;
    assert r * q == x - 1.0;
    var m := DueFutureValue(v, p, r, x);
    assert m == v * x + p * q * (1.0 + r);
    assert r * m == r * v * x + p * (r * q) * (1.0 + r);
    GrowClosedForm(v, p, r, n);
    CancelFactor(r, m, Grow(v, p, r, n));
  }

  /** The source's present value of `n` yearly withdrawals of `a`,
      a·(1 − x⁻¹)/r for x = (1+r)^n. */
  function AnnuityPresentValue(a: real, r: real, x: real): real
    requires r != 0.0 && x != 0.0
  {
    a * ((1.0 - 1.0 / x) / r)
  }

  /** Present value and amortisation are inverse: the instalment that pays
      off the present value of `a` over the same term is `a` again. */
  lemma PresentValueIsLoanFormula(a: real, r: real, x: real)
    requires r > 0.0 && x > 1.0
    ensures AnnuityPresentValue(a, r, x) == LoanFormula(a, r, x)
  {
    var pv := AnnuityPresentValue(a, r, x);
    assert (1.0 - 1.0 / x) * x == x - 1.0;
    assert pv * (r * x) == a * ((1.0 - 1.0 / x) * x);
    assert r * x > 0.0;
  }
}
