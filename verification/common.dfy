/** Shared vocabulary of the calculators: results, error reasons, and the few
    numeric helpers (integer powers, Python's round, ASCII lower-casing) that
    every engine uses. */
module Common {

  datatype Option<+T> = None | Some(value: T)

  /** One constructor per validation message a calculator can return as an
      error record, plus the two Python exceptions that escape a calculator
      unhandled (division by zero and an unbound name). */
  datatype Error =
    | InvalidAge
    | InvalidRiskTolerance
    | InvalidAllocationRule
    | NonPositivePrice
    | NonPositiveQuantity
    | NegativeHoldingPeriod
    | NonPositiveInvestment
    | ReturnOutOfRange
    | YearsOutOfRange
    | StepUpOutOfRange
    | NonPositiveGoal
    | InflationOutOfRange
    | NegativeExistingCorpus
    | NonPositivePortfolioValue
    | PercentageOutOfRange
    | AllocationNotHundred(total: real)
    | AlreadyRetired
    | LifeExpectancyNotAfterRetirement
    | MalformedJson
    | HoldingsNotAList
    | EmptyHoldings
    | UnknownCategory(available: seq<string>)
    | ZeroDivision
    | UnboundSelf

  datatype Result<+T> = Ok(value: T) | Err(error: Error)

  function Min(a: real, b: real): real { if a <= b then a else b }

  function Max(a: real, b: real): real { if a >= b then a else b }

  function MinInt(a: int, b: int): int { if a <= b then a else b }

  function MaxInt(a: int, b: int): int { if a >= b then a else b }

  function Abs(x: real): real { if x < 0.0 then -x else x }

  /** x raised to a natural exponent, the `**` of the source on an int exponent. */
  function Pow(x: real, n: nat): real
  {
    if n == 0 then 1.0 else x * Pow(x, n - 1)
  }

  lemma {:induction false} PowPositive(x: real, n: nat)
    requires x > 0.0
    ensures Pow(x, n) > 0.0
  {
    if n > 0 {
      PowPositive(x, n - 1);
    }
  }

  lemma {:induction false} PowNonZero(x: real, n: nat)
    requires x != 0.0
    ensures Pow(x, n) != 0.0
  {
    if n > 0 {
      PowNonZero(x, n - 1);
    }
  }

  lemma {:induction false} PowAtLeastOne(x: real, n: nat)
    requires x >= 1.0
    ensures Pow(x, n) >= 1.0
  {
    if n > 0 {
      PowAtLeastOne(x, n - 1);
    }
  }

  /** A base above one raised to a positive power exceeds one. */
  lemma {:induction false} PowAboveOne(x: real, n: nat)
    requires x > 1.0 && n >= 1
    ensures Pow(x, n) > 1.0
  {
    PowAtLeastOne(x, n - 1);
  }

  lemma {:induction false} PowAdd(x: real, a: nat, b: nat)
    ensures Pow(x, a + b) == Pow(x, a) * Pow(x, b)
  {
    if a > 0 {
      PowAdd(x, a - 1, b);
    }
  }

  /** x raised to any integer exponent; a negative exponent divides, so a zero
      base needs a non-negative exponent (Python raises ZeroDivisionError). */
  function PowZ(x: real, n: int): (y: real)
    requires x != 0.0 || n >= 0
    ensures n >= 0 ==> y == Pow(x, n)
    // a negative power undoes the matching positive one
    ensures n < 0 ==> y * Pow(x, -n) == 1.0
  {
    if n >= 0 then Pow(x, n)
    else
      PowNonZero(x, -n);
      1.0 / Pow(x, -n)
  }

  /** Python's round() to an integer on an exact value: nearest integer, ties
      to the even neighbour. */
  function RoundHalfEven(x: real): (r: int)
    ensures -0.5 <= r as real - x <= 0.5
    ensures r as real - x == 0.5 || x - r as real == 0.5 ==> r % 2 == 0
  {
    var f := x.Floor;
    var d := x - f as real;
    if d < 0.5 then f
    else if d > 0.5 then f + 1
    else if f % 2 == 0 then f
    else f + 1
  }

  function LowerChar(c: char): char
  {
    if 'A' <= c <= 'Z' then (c as int + 32) as char else c
  }

  /** `str.lower()` restricted to ASCII letters. */
  function Lower(s: string): (t: string)
    ensures |t| == |s|
    ensures forall i :: 0 <= i < |s| ==> t[i] == LowerChar(s[i])
  {
    seq(|s|, i requires 0 <= i < |s| => LowerChar(s[i]))
  }
}
