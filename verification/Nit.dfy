/**
 The check digit of a Colombian tax number (NIT): the digits, from the last one, are weighted by
 fifteen primes; the sum modulo eleven gives the digit, and remainders 1 and 10 give the same one.
 */
module Nit {

  const Weights: seq<nat> := [3, 7, 13, 17, 19, 23, 29, 37, 41, 43, 47, 53, 59, 67, 71]

  predicate IsDigit(c: char) { '0' <= c <= '9' }

  function DigitValue(c: char): nat
    requires IsDigit(c)
  {
    (c - '0') as nat
  }

  /** The digits of a text, last one first. */
  function DigitsReversed(s: string): seq<nat>
    ensures forall i :: 0 <= i < |DigitsReversed(s)| ==> DigitsReversed(s)[i] <= 9
  {
    if s == "" then []
    else DigitsReversed(s[1..]) + (if IsDigit(s[0]) then [DigitValue(s[0])] else [])
  }

  /** Digits past the fifteenth from the right carry no weight. */
  function WeightedSum(digits: seq<nat>, i: nat): nat
    decreases |digits| - i
  {
    if i >= |digits| || i >= |Weights| then 0 else digits[i] * Weights[i] + WeightedSum(digits, i + 1)
  }

  function DigitFor(remainder: nat): string
    requires remainder < 11
  {
    if remainder == 0 then "0"
    else if remainder == 1 then "1"
    else ['0' + (11 - remainder) as char]
  }

  function Remainder(digits: seq<nat>): nat { WeightedSum(digits, 0) % 11 }

  function CheckDigit(nit: string): string
  {
    var digits := DigitsReversed(nit);
    if digits == [] then "" else DigitFor(Remainder(digits))
  }

  method ComputeNitCheckDigit(nit: string) returns (dv: string)
    ensures dv == CheckDigit(nit)
  {
    var digits := DigitsReversed(nit);
    if digits == [] { return ""; }
    var total := 0;
    var i := 0;
    while i < |digits| && i < |Weights|
      invariant 0 <= i <= |digits| && i <= |Weights|
      invariant total + WeightedSum(digits, i) == WeightedSum(digits, 0)
    {
      total := total + digits[i] * Weights[i];
      i := i + 1;
    }
    dv := DigitFor(total % 11);
  }

  // ---------------------------------------------------------------- single changes

  lemma {:induction false} SumAfterChange(digits: seq<nat>, i: nat, x: nat, k: nat)
    requires i < |digits| && k <= |digits|
    ensures WeightedSum(digits[i := x], k) ==
      WeightedSum(digits, k) + (if k <= i < |Weights| then (x - digits[i]) * Weights[i] else 0)
    decreases |digits| - k
  {
    if k < |digits| && k < |Weights| {
      SumAfterChange(digits, i, x, k + 1);
      if k == i {
        assert (x - digits[i]) * Weights[i] == x * Weights[i] - digits[i] * Weights[i];
      }
    }
  }

  /** An inverse of each weight modulo eleven. */
  const Inverses: seq<nat> := [4, 8, 6, 2, 7, 1, 8, 3, 7, 10, 4, 5, 3, 1, 9]

  lemma WeightInverse(i: nat) returns (t: int)
    requires i < |Weights|
    ensures Weights[i] * Inverses[i] == 1 + 11 * t
  {
    var products := [12, 56, 78, 34, 133, 23, 232, 111, 287, 430, 188, 265, 177, 67, 639];
    assert Weights[i] * Inverses[i] == products[i];
    t := [1, 5, 7, 3, 12, 2, 21, 10, 26, 39, 17, 24, 16, 6, 58][i];
  }

  /** A factor with an inverse can be cancelled modulo eleven. */
  lemma Cancel(d: int, w: int, s: int, t: int, q: int)
    requires w * s == 1 + 11 * t && d * w == 11 * q
    ensures d == 11 * (q * s - t * d)
  {
    assert d * (w * s) == (d * w) * s;
    assert d * (1 + 11 * t) == d + 11 * (t * d);
    assert (11 * q) * s == 11 * (q * s);
  }

  lemma NotAMultiple(d: int, k: int)
    requires -9 <= d <= 9 && d == 11 * k
    ensures d == 0
  {}

  /** No weight shares a factor with eleven. */
  lemma NoMultiple(i: nat, d: int)
    requires i < |Weights| && -9 <= d <= 9
    ensures (d * Weights[i]) % 11 == 0 ==> d == 0
  {
    var p := d * Weights[i];
    if p % 11 == 0 {
      var t := WeightInverse(i);
      Cancel(d, Weights[i], Inverses[i], t, p / 11);
      NotAMultiple(d, p / 11 * Inverses[i] - t * d);
    }
  }

  lemma SameRemainder(a: int, b: int)
    ensures a % 11 == b % 11 <==> (b - a) % 11 == 0
  {
  }

  /** Changing one digit changes the remainder exactly when the digit is among the fifteen that
      carry weight. */
  lemma ChangeDetectedExactly(digits: seq<nat>, i: nat, x: nat)
    requires i < |digits| && digits[i] <= 9 && x <= 9 && x != digits[i]
    ensures Remainder(digits[i := x]) != Remainder(digits) <==> i < 15
  {
    SumAfterChange(digits, i, x, 0);
    if i < 15 {
      NoMultiple(i, x - digits[i]);
      SameRemainder(WeightedSum(digits, 0), WeightedSum(digits[i := x], 0));
    }
  }

  /** Neighbouring weights differ by 2, 4, 6 or 8, which no multiple of eleven can hide. */
  lemma NoMultipleOfGap(i: nat, d: int)
    requires i + 1 < |Weights| && -9 <= d <= 9
    ensures (d * (Weights[i + 1] as int - Weights[i])) % 11 == 0 ==> d == 0
  {
    var g := Weights[i + 1] as int - Weights[i];
    assert g == [4, 6, 4, 2, 4, 6, 8, 4, 2, 4, 6, 6, 8, 4][i];
    var p := d * g;
    if p % 11 == 0 {
      if g == 2 { Cancel(d, 2, 6, 1, p / 11); NotAMultiple(d, p / 11 * 6 - 1 * d); }
      else if g == 4 { Cancel(d, 4, 3, 1, p / 11); NotAMultiple(d, p / 11 * 3 - 1 * d); }
      else if g == 6 { Cancel(d, 6, 2, 1, p / 11); NotAMultiple(d, p / 11 * 2 - 1 * d); }
      else { Cancel(d, 8, 7, 5, p / 11); NotAMultiple(d, p / 11 * 7 - 5 * d); }
    }
  }

  lemma SwapEffect(a: int, b: int, v: int, w: int)
    ensures (b - a) * v + (a - b) * w == (a - b) * (w - v)
  {}

  /** Swapping two different neighbouring digits that carry weight changes the remainder. */
  lemma SwapDetected(digits: seq<nat>, i: nat)
    requires i + 1 < |digits| && i + 1 < 15
    requires digits[i] <= 9 && digits[i + 1] <= 9 && digits[i] != digits[i + 1]
    ensures Remainder(digits[i := digits[i + 1]][i + 1 := digits[i]]) != Remainder(digits)
  {
    hide WeightedSum;
    var a: int, b: int := digits[i], digits[i + 1];
    var once := digits[i := b];
    var twice := once[i + 1 := a];
    SumAfterChange(digits, i, b, 0);
    SumAfterChange(once, i + 1, a, 0);
    SwapEffect(a, b, Weights[i], Weights[i + 1]);
    NoMultipleOfGap(i, a - b);
    SameRemainder(WeightedSum(digits, 0), WeightedSum(twice, 0));
  }

  /** Two remainders give the same check digit only when they are equal, or are 1 and 10. */
  lemma DigitClash(r: nat, s: nat)
    requires r < 11 && s < 11
    ensures DigitFor(r) == DigitFor(s) <==> r == s || (r == 1 && s == 10) || (r == 10 && s == 1)
  {
    assert |DigitFor(r)| == 1 && |DigitFor(s)| == 1;
    assert DigitFor(r) == DigitFor(s) <==> DigitFor(r)[0] == DigitFor(s)[0];
  }

  /** A changed digit or a swap shows in the check digit unless the two remainders are 1 and 10. */
  lemma ShowsUnlessClash(before: seq<nat>, after: seq<nat>)
    requires Remainder(before) != Remainder(after)
    ensures DigitFor(Remainder(before)) == DigitFor(Remainder(after)) <==>
      {Remainder(before), Remainder(after)} == {1, 10}
  {
    hide WeightedSum;
    var r, s := Remainder(before), Remainder(after);
    DigitClash(r, s);
    assert {r, s} == {1, 10} ==> r in {1, 10} && s in {1, 10};
  }

  // ---------------------------------------------------------------- on the number as it is written

  ghost predicate AllDigits(s: string)
  {
    forall i :: 0 <= i < |s| ==> IsDigit(s[i])
  }

  lemma {:induction false} DigitAt(s: string, k: nat)
    requires AllDigits(s)
    ensures |DigitsReversed(s)| == |s|
    ensures k < |s| ==> DigitsReversed(s)[k] == DigitValue(s[|s| - 1 - k])
  {
    if s != "" {
      DigitAt(s[1..], if k < |s| - 1 then k else 0);
    }
  }

  lemma DigitsAfterChange(s: string, i: nat, c: char)
    requires AllDigits(s) && i < |s| && IsDigit(c)
    ensures AllDigits(s[i := c]) && |DigitsReversed(s)| == |s|
    ensures DigitsReversed(s[i := c]) == DigitsReversed(s)[|s| - 1 - i := DigitValue(c)]
  {
    hide DigitsReversed;
    var t := s[i := c];
    DigitAt(s, 0);
    DigitAt(t, 0);
    forall k | 0 <= k < |s|
      ensures DigitsReversed(t)[k] == DigitsReversed(s)[|s| - 1 - i := DigitValue(c)][k]
    {
      DigitAt(s, k);
      DigitAt(t, k);
    }
  }

  predicate Clash(r: nat, s: nat) { (r == 1 && s == 10) || (r == 10 && s == 1) }

  function NitRemainder(nit: string): nat { Remainder(DigitsReversed(nit)) }

  /** Two non-empty numbers have the same check digit exactly when they have the same remainder or
      their remainders are 1 and 10. */
  lemma SameDigitExactly(s: string, t: string)
    requires DigitsReversed(s) != [] && DigitsReversed(t) != []
    ensures CheckDigit(s) == CheckDigit(t) <==>
      NitRemainder(s) == NitRemainder(t) || Clash(NitRemainder(s), NitRemainder(t))
  {
    hide DigitsReversed, WeightedSum, DigitFor;
    DigitClash(NitRemainder(s), NitRemainder(t));
  }

  /** One wrong character goes unnoticed exactly when it is not among the last fifteen, or the
      remainders are 1 and 10. */
  lemma WrongCharacterExactly(nit: string, i: nat, c: char)
    requires AllDigits(nit) && i < |nit| && IsDigit(c) && c != nit[i]
    ensures CheckDigit(nit[i := c]) == CheckDigit(nit) <==>
      |nit| - i > 15 || Clash(NitRemainder(nit), NitRemainder(nit[i := c]))
  {
    hide DigitsReversed, WeightedSum, CheckDigit, Clash;
    var k := |nit| - 1 - i;
    DigitsAfterChange(nit, i, c);
    DigitAt(nit, k);
    ChangeDetectedExactly(DigitsReversed(nit), k, DigitValue(c));
    SameDigitExactly(nit[i := c], nit);
    ClashSymmetric(NitRemainder(nit), NitRemainder(nit[i := c]));
  }

  lemma ClashSymmetric(r: nat, s: nat)
    ensures Clash(r, s) <==> Clash(s, r)
    ensures Clash(r, s) ==> r != s
  {}

  function Swapped(nit: string, i: nat): string
    requires i + 1 < |nit|
  {
    nit[i := nit[i + 1]][i + 1 := nit[i]]
  }

  /** Two different neighbours among the last fifteen characters, written in the wrong order, go
      unnoticed exactly when the remainders are 1 and 10. */
  lemma WrongOrderExactly(nit: string, i: nat)
    requires AllDigits(nit) && i + 1 < |nit| && |nit| - i <= 15 && nit[i] != nit[i + 1]
    ensures CheckDigit(Swapped(nit, i)) == CheckDigit(nit) <==>
      Clash(NitRemainder(nit), NitRemainder(Swapped(nit, i)))
  {
    hide DigitsReversed, WeightedSum, CheckDigit, Clash;
    var k := |nit| - 2 - i;
    var once := nit[i := nit[i + 1]];
    DigitsAfterChange(nit, i, nit[i + 1]);
    DigitsAfterChange(once, i + 1, nit[i]);
    DigitAt(nit, k);
    DigitAt(nit, k + 1);
    var digits := DigitsReversed(nit);
    SwapDetected(digits, k);
    assert DigitsReversed(Swapped(nit, i)) == digits[k := digits[k + 1]][k + 1 := digits[k]];
    SameDigitExactly(Swapped(nit, i), nit);
    ClashSymmetric(NitRemainder(nit), NitRemainder(Swapped(nit, i)));
  }

  // ---------------------------------------------------------------- what the check digit is

  /** The `k`-th digit from the right of a number, zero past its first digit. */
  function FromRight(nit: string, k: nat): nat
    requires AllDigits(nit)
  {
    if k < |nit| then DigitValue(nit[|nit| - 1 - k]) else 0
  }

  /** The sum of the official rule, written out. */
  function OfficialSum(nit: string): nat
    requires AllDigits(nit)
  {
    3 * FromRight(nit, 0) + 7 * FromRight(nit, 1) + 13 * FromRight(nit, 2)
    + 17 * FromRight(nit, 3) + 19 * FromRight(nit, 4) + 23 * FromRight(nit, 5)
    + 29 * FromRight(nit, 6) + 37 * FromRight(nit, 7) + 41 * FromRight(nit, 8)
    + 43 * FromRight(nit, 9) + 47 * FromRight(nit, 10) + 53 * FromRight(nit, 11)
    + 59 * FromRight(nit, 12) + 67 * FromRight(nit, 13) + 71 * FromRight(nit, 14)
  }

  function DigitOrZero(digits: seq<nat>, k: nat): nat { if k < |digits| then digits[k] else 0 }

  lemma {:induction false} PastTheDigits(digits: seq<nat>, k: nat)
    requires k >= |digits|
    ensures WeightedSum(digits, k) == 0
  {}

  lemma SumTerm(digits: seq<nat>, k: nat)
    requires k < 15
    ensures WeightedSum(digits, k) == DigitOrZero(digits, k) * Weights[k] + WeightedSum(digits, k + 1)
  {
    if k >= |digits| {
      PastTheDigits(digits, k);
      PastTheDigits(digits, k + 1);
    }
  }

  lemma SumWrittenOut(nit: string)
    requires AllDigits(nit)
    ensures WeightedSum(DigitsReversed(nit), 0) == OfficialSum(nit)
  {
    hide WeightedSum, DigitsReversed, DigitValue;
    var digits := DigitsReversed(nit);
    DigitAt(nit, 0);
    forall k: nat | k < 15 ensures DigitOrZero(digits, k) == FromRight(nit, k) { DigitAt(nit, k); }
    TermsFrom(digits, 10);
    TermsFrom(digits, 5);
    TermsFrom(digits, 0);
    NothingPastFifteen(digits);
  }

  lemma NothingPastFifteen(digits: seq<nat>)
    ensures WeightedSum(digits, 15) == 0
  {}

  /** Five terms at a time. */
  lemma TermsFrom(digits: seq<nat>, k: nat)
    requires k <= 10
    ensures WeightedSum(digits, k)
         == DigitOrZero(digits, k) * Weights[k] + DigitOrZero(digits, k + 1) * Weights[k + 1]
            + DigitOrZero(digits, k + 2) * Weights[k + 2] + DigitOrZero(digits, k + 3) * Weights[k + 3]
            + DigitOrZero(digits, k + 4) * Weights[k + 4] + WeightedSum(digits, k + 5)
  {
    hide WeightedSum, DigitOrZero;
    SumTerm(digits, k);
    SumTerm(digits, k + 1);
    SumTerm(digits, k + 2);
    SumTerm(digits, k + 3);
    SumTerm(digits, k + 4);
  }

  /** The rule that defines the digit: added to the official sum it gives a multiple of eleven,
      except when the sum leaves one, where no single digit would and the digit is 1. */
  lemma CheckDigitCompletes(nit: string)
    requires AllDigits(nit) && nit != ""
    ensures |CheckDigit(nit)| == 1 && IsDigit(CheckDigit(nit)[0])
    ensures var d := DigitValue(CheckDigit(nit)[0]);
      && ((OfficialSum(nit) + d) % 11 == 0 <==> OfficialSum(nit) % 11 != 1)
      && (OfficialSum(nit) % 11 == 1 ==> d == 1)
  {
    hide WeightedSum, DigitsReversed, OfficialSum;
    DigitAt(nit, 0);
    SumWrittenOut(nit);
    DigitCompletes(OfficialSum(nit));
  }

  lemma DigitCompletes(total: nat)
    ensures var text := DigitFor(total % 11);
      && |text| == 1 && IsDigit(text[0])
      && ((total + DigitValue(text[0])) % 11 == 0 <==> total % 11 != 1)
      && (total % 11 == 1 ==> DigitValue(text[0]) == 1)
  {
    var r := total % 11;
    var d := DigitValue(DigitFor(r)[0]);
    assert d == if r == 0 then 0 else if r == 1 then 1 else 11 - r;
    assert (total + d) % 11 == (r + d) % 11;
  }

  /** For instance 860.002.964-4. */
  lemma KnownNumber()
    ensures CheckDigit("860002964") == "4"
  {
    var nit := "860002964";
    hide WeightedSum, DigitsReversed, CheckDigit;
    assert AllDigits(nit);
    assert OfficialSum(nit) == 755;
    CheckDigitCompletes(nit);
    var d := DigitValue(CheckDigit(nit)[0]);
    assert (755 + d) % 11 == 0;
    assert d == 4;
  }

  // ---------------------------------------------------------------- leading zeros and other characters

  lemma {:induction false} SumWithTrailing(digits: seq<nat>, extra: seq<nat>, k: nat)
    requires k <= |digits| && forall j :: 0 <= j < |extra| ==> extra[j] == 0
    ensures WeightedSum(digits + extra, k) == WeightedSum(digits, k)
    decreases |digits| - k
  {
    if k < |digits| {
      SumWithTrailing(digits, extra, k + 1);
    } else {
      ZeroTail(digits + extra, k);
    }
  }

  lemma {:induction false} ZeroTail(digits: seq<nat>, k: nat)
    requires forall j :: k <= j < |digits| ==> digits[j] == 0
    ensures WeightedSum(digits, k) == 0
    decreases |digits| - k
  {
    if k < |digits| { ZeroTail(digits, k + 1); }
  }

  /** A leading zero never changes the check digit of a number. */
  lemma LeadingZero(nit: string)
    requires DigitsReversed(nit) != []
    ensures CheckDigit("0" + nit) == CheckDigit(nit)
  {
    assert ("0" + nit)[1..] == nit;
    assert DigitsReversed("0" + nit) == DigitsReversed(nit) + [0];
    SumWithTrailing(DigitsReversed(nit), [0], 0);
  }

  /** The text without its non-digits. */
  function Clean(s: string): string
    ensures forall i :: 0 <= i < |Clean(s)| ==> IsDigit(Clean(s)[i])
  {
    if s == "" then "" else (if IsDigit(s[0]) then [s[0]] else []) + Clean(s[1..])
  }

  /** Prefixes, dashes and spaces do not matter: only the digits count. */
  lemma {:induction false} CleanKeepsDigits(s: string)
    ensures DigitsReversed(Clean(s)) == DigitsReversed(s)
    ensures CheckDigit(Clean(s)) == CheckDigit(s)
  {
    if s != "" {
      CleanKeepsDigits(s[1..]);
      if IsDigit(s[0]) {
        assert Clean(s)[1..] == Clean(s[1..]);
      } else {
        assert Clean(s) == Clean(s[1..]);
      }
    }
  }
}
