/**
 Amounts of money are whole cents (`int`); rates and quotients are exact reals.
 `RoundCents` is round-to-nearest with ties to even, the rule of Python's `round(x, 2)`
 on an exactly represented value.
 */
module Money {

  function RoundCents(x: real): (r: int)
    ensures -0.5 <= r as real - x <= 0.5
    ensures x == x.Floor as real ==> r == x.Floor
  {
    var q := x.Floor;
    var rest := x - q as real;
    if rest < 0.5 then q
    else if rest > 0.5 then q + 1
    else if q % 2 == 0 then q
    else q + 1
  }

  lemma RoundCentsMonotone(x: real, y: real)
    requires x <= y
    ensures RoundCents(x) <= RoundCents(y)
  {
    if x.Floor == y.Floor {
    } else {
      assert x.Floor + 1 <= y.Floor;
    }
  }

  /** Rounding is to a nearest whole number, and of two equally near ones to the even one. */
  lemma RoundCentsExactly(x: real, r: int)
    ensures r == RoundCents(x) <==>
      -0.5 <= r as real - x <= 0.5 && (r as real - x == 0.5 || r as real - x == -0.5 ==> r % 2 == 0)
  {
    var q := x.Floor;
    var near := -0.5 <= r as real - x <= 0.5;
    if near {
      assert q <= r <= q + 1;
    }
  }

  lemma RoundCentsOfInt(k: int)
    ensures RoundCents(k as real) == k
  {
    assert (k as real).Floor == k;
  }

  lemma RoundCentsWithin(x: real, lo: int, hi: int)
    requires lo as real <= x <= hi as real
    ensures lo <= RoundCents(x) <= hi
  {
    RoundCentsMonotone(lo as real, x);
    RoundCentsMonotone(x, hi as real);
    RoundCentsOfInt(lo);
    RoundCentsOfInt(hi);
  }

  function Max(x: real, y: real): real { if x >= y then x else y }

  function Min(x: real, y: real): real { if x <= y then x else y }

  function MinInt(a: int, b: int): int { if a <= b then a else b }

  function Abs(x: int): nat { if x < 0 then -x else x }

  function Sum(s: seq<int>): int
  {
    if s == [] then 0 else s[0] + Sum(s[1..])
  }

  lemma {:induction false} SumAppend(s: seq<int>, t: seq<int>)
    ensures Sum(s + t) == Sum(s) + Sum(t)
  {
    if s == [] {
      assert s + t == t;
    } else {
      assert (s + t)[1..] == s[1..] + t;
      SumAppend(s[1..], t);
    }
  }

  lemma {:induction false} SumUpdate(s: seq<int>, i: nat, x: int)
    requires i < |s|
    ensures Sum(s[i := x]) == Sum(s) - s[i] + x
  {
    if i == 0 {
      assert s[i := x][1..] == s[1..];
    } else {
      assert s[i := x][1..] == s[1..][i - 1 := x];
      SumUpdate(s[1..], i - 1, x);
    }
  }

  lemma SumPrefixStep(s: seq<int>, k: nat)
    requires k < |s|
    ensures Sum(s[..k + 1]) == Sum(s[..k]) + s[k]
  {
    assert s[..k + 1] == s[..k] + [s[k]];
    SumAppend(s[..k], [s[k]]);
  }

  lemma {:induction false} SumConstant(n: nat, c: int)
    ensures Sum(seq(n, k => c)) == n * c
  {
    if n > 0 {
      var s: seq<int> := seq(n, k => c);
      assert s[1..] == seq(n - 1, k => c);
      SumConstant(n - 1, c);
    }
  }
}
