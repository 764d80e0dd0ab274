/** The two income-tax slab schedules of `compare_tax_regimes` (FY 2024-25),
    each written as the source's nested if-chain and related to an
    independent reference: a marginal-rate table in which every bracket taxes
    only the slice of income that falls inside it. */
module TaxSlabs {
  import opened Common

  /** Old-regime tax on taxable income: 0 / 5% / 20% / 30% above
      2.5 lakh / 5 lakh / 10 lakh. */
  function OldRegimeTax(t: real): (tax: real)
    ensures tax == 0.0 <==> t <= 250000.0
    ensures 0.0 <= tax <= 0.30 * Max(0.0, t)
  {
    if t <= 250000.0 then 0.0
    else if t <= 500000.0 then (t - 250000.0) * 0.05
    else if t <= 1000000.0 then 12500.0 + (t - 500000.0) * 0.20
    else 112500.0 + (t - 1000000.0) * 0.30
  }

  /** New-regime tax on taxable income: 0 / 5% / 10% / 15% / 20% / 30% above
      3 / 7 / 10 / 12 / 15 lakh. */
  function NewRegimeTax(t: real): (tax: real)
    ensures tax == 0.0 <==> t <= 300000.0
    ensures 0.0 <= tax <= 0.30 * Max(0.0, t)
  {
    if t <= 300000.0 then 0.0
    else if t <= 700000.0 then (t - 300000.0) * 0.05
    else if t <= 1000000.0 then 20000.0 + (t - 700000.0) * 0.10
    else if t <= 1200000.0 then 50000.0 + (t - 1000000.0) * 0.15
    else if t <= 1500000.0 then 80000.0 + (t - 1200000.0) * 0.20
    else 140000.0 + (t - 1500000.0) * 0.30
  }

  /** A bracket: its marginal rate applies from `lower` up to the next
      bracket's lower bound (the last bracket is open-ended). */
  datatype Slab = Slab(lower: real, rate: real)

  const OldSlabs: seq<Slab> :=
    [Slab(0.0, 0.0), Slab(250000.0, 0.05), Slab(500000.0, 0.20), Slab(1000000.0, 0.30)]

  const NewSlabs: seq<Slab> :=
    [Slab(0.0, 0.0), Slab(300000.0, 0.05), Slab(700000.0, 0.10),
     Slab(1000000.0, 0.15), Slab(1200000.0, 0.20), Slab(1500000.0, 0.30)]

  /** The part of income `t` above `lo`. */
  function Above(t: real, lo: real): real
  {
    Max(0.0, t - lo)
  }

  /** The slice of income `t` that lies between `lo` and `hi`. */
  function Slice(t: real, lo: real, hi: real): real
  {
    Max(0.0, Min(t, hi) - lo)
  }

  /** Tax as the sum over brackets of rate × the income slice in that bracket. */
  function MarginalTax(slabs: seq<Slab>, t: real): real
    requires |slabs| >= 1
    decreases |slabs|
  {
    if |slabs| == 1 then slabs[0].rate * Above(t, slabs[0].lower)
    else slabs[0].rate * Slice(t, slabs[0].lower, slabs[1].lower) + MarginalTax(slabs[1..], t)
  }

  /** The if-chain of the old regime is the marginal table: each branch's
      constant (12500, 112500) is the full tax of the brackets below it. */
  lemma OldRegimeIsMarginal(t: real)
    ensures OldRegimeTax(t) == MarginalTax(OldSlabs, t)
  {
    var s3 := OldSlabs[3..];
    var s2 := OldSlabs[2..];
    var s1 := OldSlabs[1..];
    assert s3 == [Slab(1000000.0, 0.30)];
    assert s2 == [Slab(500000.0, 0.20)] + s3 && s2[1..] == s3;
    assert s1 == [Slab(250000.0, 0.05)] + s2 && s1[1..] == s2;
    assert OldSlabs[1..] == s1;
    assert MarginalTax(s3, t) == 0.30 * Above(t, 1000000.0);
    assert MarginalTax(s2, t) == 0.20 * Slice(t, 500000.0, 1000000.0) + MarginalTax(s3, t);
    assert MarginalTax(s1, t) == 0.05 * Slice(t, 250000.0, 500000.0) + MarginalTax(s2, t);
    assert MarginalTax(OldSlabs, t) == 0.0 * Slice(t, 0.0, 250000.0) + MarginalTax(s1, t);
  }

  /** The if-chain of the new regime is the marginal table (20000, 50000,
      80000, 140000 are the full tax of the brackets below). */
  lemma NewRegimeIsMarginal(t: real)
    ensures NewRegimeTax(t) == MarginalTax(NewSlabs, t)
  {
    var s5 := NewSlabs[5..];
    var s4 := NewSlabs[4..];
    var s3 := NewSlabs[3..];
    var s2 := NewSlabs[2..];
    var s1 := NewSlabs[1..];
    assert s5 == [Slab(1500000.0, 0.30)];
    assert s4 == [Slab(1200000.0, 0.20)] + s5 && s4[1..] == s5;
    assert s3 == [Slab(1000000.0, 0.15)] + s4 && s3[1..] == s4;
    assert s2 == [Slab(700000.0, 0.10)] + s3 && s2[1..] == s3;
    assert s1 == [Slab(300000.0, 0.05)] + s2 && s1[1..] == s2;
    assert MarginalTax(s5, t) == 0.30 * Above(t, 1500000.0);
    assert MarginalTax(s4, t) == 0.20 * Slice(t, 1200000.0, 1500000.0) + MarginalTax(s5, t);
    assert MarginalTax(s3, t) == 0.15 * Slice(t, 1000000.0, 1200000.0) + MarginalTax(s4, t);
    assert MarginalTax(s2, t) == 0.10 * Slice(t, 700000.0, 1000000.0) + MarginalTax(s3, t);
    assert MarginalTax(s1, t) == 0.05 * Slice(t, 300000.0, 700000.0) + MarginalTax(s2, t);
    assert MarginalTax(NewSlabs, t) == 0.0 * Slice(t, 0.0, 300000.0) + MarginalTax(s1, t);
  }

  /** Old-regime tax is non-decreasing and continuous: between any two incomes
      it rises by at most 30% of the difference, so no bracket boundary jumps. */
  lemma OldRegimeMonotoneContinuous(a: real, b: real)
    requires a <= b
    ensures 0.0 <= OldRegimeTax(b) - OldRegimeTax(a) <= 0.30 * (b - a)
  {
  }

  /** New-regime tax is non-decreasing and continuous in the same sense. */
  lemma NewRegimeMonotoneContinuous(a: real, b: real)
    requires a <= b
    ensures 0.0 <= NewRegimeTax(b) - NewRegimeTax(a) <= 0.30 * (b - a)
  {
  }
}
