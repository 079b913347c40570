/**
 Percentage allocation: an amount is split by percentages, each share rounded to the cent, the
 last share absorbing the rounding and any gap between the percentages and one hundred.
 */
module Allocation {
  import opened Prelude
  import opened Money
  import opened Ledger

  function Share(amount: int, percentage: real): real { amount as real * percentage / 100.0 }

  function SumReal(s: seq<real>): real
  {
    if s == [] then 0.0 else SumReal(s[..|s| - 1]) + s[|s| - 1]
  }

  /** The rounded shares of the first `k` percentages. */
  function Rounded(amount: int, percentages: seq<real>, k: nat): seq<int>
    requires k <= |percentages|
    ensures |Rounded(amount, percentages, k)| == k
  {
    if k == 0 then [] else Rounded(amount, percentages, k - 1) + [RoundCents(Share(amount, percentages[k - 1]))]
  }

  function Split(amount: int, percentages: seq<real>): seq<int>
    requires percentages != []
  {
    var head := Rounded(amount, percentages, |percentages| - 1);
    head + [amount - Sum(head)]
  }

  /** The record constraint: the percentages add up to one hundred within one hundredth. */
  predicate AddUp(percentages: seq<real>)
  {
    -0.01 <= SumReal(percentages) - 100.0 <= 0.01
  }

  /** The shares add up to the amount exactly, whatever the percentages. */
  lemma SplitConserves(amount: int, percentages: seq<real>)
    requires percentages != []
    ensures |Split(amount, percentages)| == |percentages|
    ensures Sum(Split(amount, percentages)) == amount
  {
    var head := Rounded(amount, percentages, |percentages| - 1);
    SumAppend(head, [amount - Sum(head)]);
  }

  lemma ShareAdds(amount: int, p: real, q: real)
    ensures Share(amount, p + q) == Share(amount, p) + Share(amount, q)
  {
    var a := amount as real;
    assert a * (p + q) == a * p + a * q;
  }

  /** Rounding moves a prefix of the shares by at most half a cent each. */
  lemma {:induction false} RoundedNear(amount: int, percentages: seq<real>, k: nat)
    requires k <= |percentages|
    ensures var gap := Sum(Rounded(amount, percentages, k)) as real - Share(amount, SumReal(percentages[..k]));
      -0.5 * k as real <= gap <= 0.5 * k as real
  {
    hide Share, RoundCents;
    if k == 0 {
      assert Share(amount, 0.0) == 0.0 by { ShareOfZero(amount); }
      assert percentages[..0] == [];
    } else {
      RoundedNear(amount, percentages, k - 1);
      var p := percentages[k - 1];
      assert percentages[..k][..k - 1] == percentages[..k - 1];
      ShareAdds(amount, SumReal(percentages[..k - 1]), p);
      SumAppend(Rounded(amount, percentages, k - 1), [RoundCents(Share(amount, p))]);
    }
  }

  lemma ShareOfZero(amount: int)
    ensures Share(amount, 0.0) == 0.0
  {}

  /** A hundred percent within one hundredth is the amount within one ten-thousandth of it. */
  lemma ShareOfHundred(amount: int, total: real)
    requires -0.01 <= total - 100.0 <= 0.01
    ensures -0.0001 * Abs(amount) as real <= amount as real - Share(amount, total) <= 0.0001 * Abs(amount) as real
  {
    var d := total - 100.0;
    var a := amount as real;
    assert a - Share(amount, total) == -(a * d) / 100.0;
    BoundedProduct(a, d);
  }

  lemma BoundedProduct(a: real, d: real)
    requires -0.01 <= d <= 0.01
    ensures var m := if a < 0.0 then -a else a;
      -0.01 * m <= a * d <= 0.01 * m
  {
    var m := if a < 0.0 then -a else a;
    NonNegativeProduct(m, d + 0.01);
    NonNegativeProduct(m, 0.01 - d);
    assert m * (d + 0.01) == m * d + 0.01 * m;
    assert m * (0.01 - d) == 0.01 * m - m * d;
    assert a * d == m * d || a * d == -(m * d);
  }

  lemma NonNegativeProduct(x: real, y: real)
    requires x >= 0.0 && y >= 0.0
    ensures x * y >= 0.0
  {}

  /** The last share is within half a cent per other share, plus 0.01% of the amount, of its
      ideal value. */
  lemma LastShareNear(amount: int, percentages: seq<real>)
    requires percentages != [] && AddUp(percentages)
    ensures var n := |percentages|;
      var last := Split(amount, percentages)[n - 1];
      var slack := 0.5 * (n - 1) as real + 0.0001 * Abs(amount) as real;
      -slack <= last as real - Share(amount, percentages[n - 1]) <= slack
  {
    hide Share;
    var n := |percentages|;
    var before := percentages[..n - 1];
    RoundedNear(amount, percentages, n - 1);
    ShareAdds(amount, SumReal(before), percentages[n - 1]);
    ShareOfHundred(amount, SumReal(percentages));
  }

  // ---------------------------------------------------------------- the entry

  datatype Refusal = NoAllocationLines

  /** A share is booked on each side on which the source line carries an amount. */
  function PartPosting(account: nat, part: int, debit: int, credit: int): Posting
  {
    Posting(Some(account), if debit != 0 then part else 0, if credit != 0 then part else 0)
  }

  function EntryOf(parts: seq<int>, accounts: seq<nat>, debit: int, credit: int): Move
    requires |parts| <= |accounts|
  {
    if parts == [] then []
    else
      var last := |parts| - 1;
      EntryOf(parts[..last], accounts, debit, credit) + [PartPosting(accounts[last], parts[last], debit, credit)]
  }

  lemma {:induction false} EntryTotal(parts: seq<int>, accounts: seq<nat>, debit: int, credit: int)
    requires |parts| <= |accounts|
    ensures Total(EntryOf(parts, accounts, debit, credit))
         == (if debit != 0 then Sum(parts) else 0) - (if credit != 0 then Sum(parts) else 0)
  {
    if parts != [] {
      var last := |parts| - 1;
      var q := PartPosting(accounts[last], parts[last], debit, credit);
      EntryTotal(parts[..last], accounts, debit, credit);
      NetAppend(EntryOf(parts[..last], accounts, debit, credit), [q], None);
      NetCons(q, [], None);
      assert [q] + [] == [q];
      assert parts == parts[..last] + [parts[last]];
      SumAppend(parts[..last], [parts[last]]);
    }
  }

  function Given(debit: int, credit: int): int { if debit != 0 then debit else credit }

  /** The generated entry has no counterpart: for a line that carries an amount on one side it is
      off balance by that whole amount, and it balances exactly when the line carries both or none. */
  lemma EntryOffBalance(debit: int, credit: int, percentages: seq<real>, accounts: seq<nat>)
    requires percentages != [] && |percentages| <= |accounts|
    ensures |Split(Given(debit, credit), percentages)| <= |accounts|
    ensures var total := Total(EntryOf(Split(Given(debit, credit), percentages), accounts, debit, credit));
      && (debit != 0 && credit == 0 ==> total == debit)
      && (debit == 0 && credit != 0 ==> total == -credit)
      && (total == 0 <==> (debit == 0 <==> credit == 0))
  {
    SplitConserves(Given(debit, credit), percentages);
    EntryTotal(Split(Given(debit, credit), percentages), accounts, debit, credit);
  }

  /** One peso of debit split in halves, for instance: a hundred cents of debit and no credit. */
  lemma OnePesoOffBalance()
    ensures |Split(100, [50.0, 50.0])| <= 2
    ensures Total(EntryOf(Split(100, [50.0, 50.0]), [1, 2], 100, 0)) == 100
  {
    hide Split, EntryOf, Total;
    EntryOffBalance(100, 0, [50.0, 50.0], [1, 2]);
  }

  /** No entry when the source line carries no amount. */
  method ApplyAllocation(debit: int, credit: int, percentages: seq<real>, accounts: seq<nat>)
    returns (r: Result<Option<Move>, Refusal>)
    requires |accounts| == |percentages|
    ensures percentages == [] ==> r == Err(NoAllocationLines)
    ensures percentages != [] && debit == 0 && credit == 0 ==> r == Ok(None)
    ensures percentages != [] && !(debit == 0 && credit == 0) ==>
      |Split(Given(debit, credit), percentages)| <= |accounts| &&
      r == Ok(Some(EntryOf(Split(Given(debit, credit), percentages), accounts, debit, credit)))
  {
    hide Split, EntryOf;
    if percentages == [] { return Err(NoAllocationLines); }
    var amount := if debit != 0 then debit else credit;
    if amount == 0 { return Ok(None); }
    var lines := AllocateAmount(amount, percentages, accounts, debit, credit);
    r := Ok(Some(lines));
  }

  /** The allocation loop. */
  method AllocateAmount(amount: int, percentages: seq<real>, accounts: seq<nat>, debit: int, credit: int)
    returns (lines: Move)
    requires percentages != [] && |accounts| == |percentages|
    ensures |Split(amount, percentages)| <= |accounts|
    ensures lines == EntryOf(Split(amount, percentages), accounts, debit, credit)
  {
    hide RoundCents, Share, Sum;
    ghost var plan := Split(amount, percentages);
    var n := |percentages|;
    RoundedPrefix(amount, percentages);
    lines := [];
    var given := 0;
    NothingGiven(amount, percentages);
    assert plan[..0] == [];
    for i := 0 to n
      invariant lines == EntryOf(plan[..i], accounts, debit, credit)
      invariant given == Sum(Rounded(amount, percentages, if i < n then i else n - 1))
    {
      var part;
      if i == n - 1 {
        part := amount - given;
      } else {
        part := RoundCents(Share(amount, percentages[i]));
        RoundedSum(amount, percentages, i);
        given := given + part;
      }
      assert part == plan[i];
      assert plan[..i + 1][..i] == plan[..i];
      lines := lines + [Posting(Some(accounts[i]), if debit != 0 then part else 0, if credit != 0 then part else 0)];
    }
    assert plan[..n] == plan;
  }

  lemma NothingGiven(amount: int, percentages: seq<real>)
    ensures Sum(Rounded(amount, percentages, 0)) == 0
  {}

  lemma RoundedSum(amount: int, percentages: seq<real>, k: nat)
    requires k < |percentages|
    ensures Sum(Rounded(amount, percentages, k + 1))
         == Sum(Rounded(amount, percentages, k)) + RoundCents(Share(amount, percentages[k]))
  {
    hide RoundCents, Share;
    SumAppend(Rounded(amount, percentages, k), [RoundCents(Share(amount, percentages[k]))]);
  }

  /** Every share but the last is the rounding of its own percentage. */
  lemma RoundedPrefix(amount: int, percentages: seq<real>)
    requires percentages != []
    ensures |Split(amount, percentages)| == |percentages|
    ensures forall i :: 0 <= i < |percentages| - 1 ==>
      Split(amount, percentages)[i] == RoundCents(Share(amount, percentages[i]))
  {
    RoundedElements(amount, percentages, |percentages| - 1);
  }

  lemma {:induction false} RoundedElements(amount: int, percentages: seq<real>, k: nat)
    requires k <= |percentages|
    ensures |Rounded(amount, percentages, k)| == k
    ensures forall i :: 0 <= i < k ==> Rounded(amount, percentages, k)[i] == RoundCents(Share(amount, percentages[i]))
  {
    hide RoundCents, Share;
    if k > 0 { RoundedElements(amount, percentages, k - 1); }
  }
}
