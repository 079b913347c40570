/**
 The withholding table of article 383 of the Estatuto Tributario, in UVT: the first bracket that
 reaches the income gives its base tax plus its marginal rate on the excess over its lower end.
 */
module Withholding {
  import opened Prelude

  datatype Bracket = Bracket(over: real, upTo: Option<real>, rate: real, base: real)

  const Table: seq<Bracket> := [
    Bracket(0.0, Some(95.0), 0.0, 0.0),
    Bracket(95.0, Some(150.0), 0.19, 0.0),
    Bracket(150.0, Some(360.0), 0.28, 10.45),
    Bracket(360.0, Some(640.0), 0.33, 69.25),
    Bracket(640.0, Some(945.0), 0.35, 161.65),
    Bracket(945.0, Some(2300.0), 0.37, 268.40),
    Bracket(2300.0, None, 0.39, 770.15)]

  predicate Reaches(b: Bracket, income: real) { b.upTo.None? || income <= b.upTo.value }

  function InBracket(b: Bracket, income: real): real { b.base + (income - b.over) * b.rate }

  /** The lookup from row `i` on; zero when no row reaches the income. */
  function Lookup(income: real, i: nat): real
    requires i <= |Table|
    decreases |Table| - i
  {
    if i == |Table| then 0.0
    else if Reaches(Table[i], income) then InBracket(Table[i], income)
    else Lookup(income, i + 1)
  }

  function TaxUvt(income: real): real { Lookup(income, 0) }

  method ComputeUvtTax(income: real, uvt: real) returns (tax: real)
    ensures tax == TaxUvt(income) * uvt
  {
    hide InBracket;
    for i := 0 to |Table|
      invariant Lookup(income, i) == Lookup(income, 0)
    {
      if Reaches(Table[i], income) {
        tax := InBracket(Table[i], income) * uvt;
        return;
      }
    }
    tax := 0.0;
  }

  // ---------------------------------------------------------------- marginal slices

  /** The part of the income between two ends. */
  function Part(income: real, lo: real, hi: real): real
  {
    if income <= lo then 0.0 else if income <= hi then income - lo else hi - lo
  }

  /** The tax as the law describes it: each slice of the income taxed at its own rate. */
  function Slices(income: real): real
  {
    0.19 * Part(income, 95.0, 150.0) + 0.28 * Part(income, 150.0, 360.0) + 0.33 * Part(income, 360.0, 640.0)
    + 0.35 * Part(income, 640.0, 945.0) + 0.37 * Part(income, 945.0, 2300.0)
    + (if income > 2300.0 then 0.39 * (income - 2300.0) else 0.0)
  }

  /** The table row by row. */
  function Spelled(income: real): real
  {
    if income <= 95.0 then 0.0
    else if income <= 150.0 then (income - 95.0) * 0.19
    else if income <= 360.0 then 10.45 + (income - 150.0) * 0.28
    else if income <= 640.0 then 69.25 + (income - 360.0) * 0.33
    else if income <= 945.0 then 161.65 + (income - 640.0) * 0.35
    else if income <= 2300.0 then 268.40 + (income - 945.0) * 0.37
    else 770.15 + (income - 2300.0) * 0.39
  }

  lemma LookupSpelled(income: real)
    ensures TaxUvt(income) == Spelled(income)
  {
    assert Lookup(income, 6) == 770.15 + (income - 2300.0) * 0.39;
    assert Lookup(income, 5) == if income <= 2300.0 then 268.40 + (income - 945.0) * 0.37 else Lookup(income, 6);
    assert Lookup(income, 4) == if income <= 945.0 then 161.65 + (income - 640.0) * 0.35 else Lookup(income, 5);
    assert Lookup(income, 3) == if income <= 640.0 then 69.25 + (income - 360.0) * 0.33 else Lookup(income, 4);
    assert Lookup(income, 2) == if income <= 360.0 then 10.45 + (income - 150.0) * 0.28 else Lookup(income, 3);
    assert Lookup(income, 1) == if income <= 150.0 then (income - 95.0) * 0.19 else Lookup(income, 2);
    assert Lookup(income, 0) == if income <= 95.0 then 0.0 else Lookup(income, 1);
  }

  /** The lookup is the sum of the marginal slices up to 2300 UVT, and 0.40 UVT more above it:
      the base of the last row is not the tax at the end of the row before. */
  lemma TableIsSlices(income: real)
    ensures TaxUvt(income) == Slices(income) + (if income > 2300.0 then 0.40 else 0.0)
  {
    LookupSpelled(income);
  }

  /** No income pays a negative tax, and more income never pays less tax. */
  lemma TaxNonDecreasing(x: real, y: real)
    requires x <= y
    ensures 0.0 <= TaxUvt(x) <= TaxUvt(y)
  {
    LookupSpelled(x);
    LookupSpelled(y);
  }

  /** Income after tax strictly increases on each side of 2300 UVT. */
  lemma NetIncreases(x: real, y: real)
    requires x < y && (y <= 2300.0 || x > 2300.0)
    ensures x - TaxUvt(x) < y - TaxUvt(y)
  {
    LookupSpelled(x);
    LookupSpelled(y);
  }

  /** Across 2300 UVT it increases exactly when the gain covers the 0.40 UVT step: just above the
      step an employee takes home less than at it. */
  lemma NetAcrossTheStep(x: real, y: real)
    requires x <= 2300.0 < y
    ensures x - TaxUvt(x) < y - TaxUvt(y) <==> x < 945.0 || 0.63 * (2300.0 - x) + 0.61 * (y - 2300.0) > 0.40
  {
    LookupSpelled(x);
    LookupSpelled(y);
  }

  lemma NetCanDrop()
    ensures 2300.0 - TaxUvt(2300.0) > 2300.1 - TaxUvt(2300.1)
  {
    LookupSpelled(2300.0);
    LookupSpelled(2300.1);
  }

  lemma TaxBelowIncome(income: real)
    requires income >= 0.0
    ensures 0.0 <= TaxUvt(income) <= income
  {
    LookupSpelled(income);
  }

  /** In pesos: the tax is never negative and never exceeds the income it is charged on. */
  lemma TaxWithinIncome(income: real, uvt: real)
    requires uvt >= 0.0 && income >= 0.0
    ensures 0.0 <= TaxUvt(income) * uvt <= income * uvt
  {
    hide TaxUvt;
    TaxBelowIncome(income);
    Scale(TaxUvt(income), income, uvt);
  }

  lemma Scale(t: real, x: real, u: real)
    requires 0.0 <= t <= x && u >= 0.0
    ensures 0.0 <= t * u <= x * u
  {
    assert (x - t) * u >= 0.0;
  }
}
