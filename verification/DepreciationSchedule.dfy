/**
 The depreciation schedule of a fixed asset: straight line with the rounding absorbed by the
 last period, or declining balance switching to straight line, each amount rounded to the cent.
 Every line is dated the first of a month, so dates are month numbers.
 */
module DepreciationSchedule {
  import opened Money

  datatype Method = Linear | Degressive(factor: real)

  datatype Line = Line(sequence: nat, month: int, amount: int, remaining: int)

  // ---------------------------------------------------------------- straight line

  function MonthlyAmount(value: int, life: nat): int
    requires life > 0
  {
    RoundCents(value as real / life as real)
  }

  function LinearPlan(value: int, life: nat): seq<int>
    requires life > 0
  {
    var m := MonthlyAmount(value, life);
    seq(life - 1, k => m) + [value - (life - 1) * m]
  }

  /** One line per month, the amounts add up to the depreciable value exactly, and the last one
      is within (life - 1) / 2 cents of the ideal share. */
  lemma LinearPlanConserves(value: int, life: nat)
    requires life > 0
    ensures var plan := LinearPlan(value, life);
      && |plan| == life
      && Sum(plan) == value
      && -((life - 1) * life) <= 2 * (life * plan[life - 1] - value) <= (life - 1) * life
  {
    var m := MonthlyAmount(value, life);
    SumConstant(life - 1, m);
    SumAppend(seq(life - 1, k => m), [value - (life - 1) * m]);
    MonthlyNearest(value, life);
    var e := value - life * m;
    var last := value - (life - 1) * m;
    assert life * last - value == (life - 1) * e by {
      LastDeviation(value, life, m);
    }
    ScaleBound(e, life, life - 1);
  }

  lemma LastDeviation(value: int, life: int, m: int)
    ensures life * (value - (life - 1) * m) - value == (life - 1) * (value - life * m)
  {}

  lemma ScaleBound(e: int, b: int, n: nat)
    requires -b <= 2 * e <= b
    ensures -(n * b) <= 2 * (n * e) <= n * b
  {
    assert n * (2 * e) <= n * b;
    assert n * (-b) <= n * (2 * e);
  }

  /** The rounded monthly amount, in whole numbers: within half a life of the value when scaled
      back, hence the quotient or one more. */
  lemma MonthlyNearest(value: int, life: nat)
    requires life > 0
    ensures var m := MonthlyAmount(value, life);
      && 2 * (life * m - value) <= life
      && 2 * (value - life * m) <= life
      && (m == value / life || m == value / life + 1)
  {
    var m := MonthlyAmount(value, life);
    NearestScaled(value, life, m);
    QuotientNear(value, life, m);
  }

  lemma NearestScaled(v: int, n: nat, m: int)
    requires n > 0
    requires -0.5 <= m as real - v as real / n as real <= 0.5
    ensures 2 * (n * m - v) <= n
    ensures 2 * (v - n * m) <= n
  {
    hide Times;
    DistanceScaled(v as real, n as real, m as real);
    RealOfProduct(n, m);
    WholeDistance(n * m, v, n);
  }

  function Times(a: real, b: real): real { a * b }

  lemma RealOfProduct(n: int, m: int)
    ensures (n * m) as real == Times(n as real, m as real)
  {}

  lemma WholeDistance(p: int, v: int, n: int)
    requires -0.5 * n as real <= p as real - v as real <= 0.5 * n as real
    ensures 2 * (p - v) <= n && 2 * (v - p) <= n
  {
    assert (2 * (p - v)) as real <= n as real;
    assert (2 * (v - p)) as real <= n as real;
  }

  lemma DistanceScaled(v: real, n: real, m: real)
    requires n > 0.0 && -0.5 <= m - v / n <= 0.5
    ensures -0.5 * n <= Times(n, m) - v <= 0.5 * n
  {
    hide Times;
    var x := v / n;
    RealQuotient(v, n);
    DistanceFrom(v, n, m, x);
  }

  lemma DistanceFrom(v: real, n: real, m: real, x: real)
    requires n > 0.0 && Times(n, x) == v && -0.5 <= m - x <= 0.5
    ensures -0.5 * n <= Times(n, m) - v <= 0.5 * n
  {
    hide Times;
    TimesNear(n, x, m);
  }

  lemma RealQuotient(v: real, n: real)
    requires n > 0.0
    ensures Times(n, v / n) == v
  {}

  /** Factors half a unit apart give products half a factor apart. */
  lemma TimesNear(n: real, x: real, m: real)
    requires n > 0.0 && -0.5 <= m - x <= 0.5
    ensures -0.5 * n <= Times(n, m) - Times(n, x) <= 0.5 * n
  {
    hide Times;
    var d := m - x;
    assert x + d == m;
    TimesSplit(n, x, d);
    TimesHalf(n);
    TimesOrder(n, d, 0.5);
    TimesOrder(n, -0.5, d);
  }

  lemma TimesSplit(n: real, x: real, d: real)
    ensures Times(n, x + d) == Times(n, x) + Times(n, d)
  {}

  lemma TimesHalf(n: real)
    ensures Times(n, 0.5) == 0.5 * n && Times(n, -0.5) == -0.5 * n
  {}

  lemma TimesOrder(n: real, a: real, b: real)
    requires a <= b && n > 0.0
    ensures Times(n, a) <= Times(n, b)
  {}

  lemma RealScale(d: real, b: real, n: real)
    requires d <= b && n > 0.0
    ensures d * n <= b * n
  {}

  lemma QuotientNear(v: int, n: nat, m: int)
    requires n > 0
    requires 2 * (n * m - v) <= n && 2 * (v - n * m) <= n
    ensures m == v / n || m == v / n + 1
  {
    var q := v / n;
    assert v == n * q + v % n;
    assert n * (m - q) == n * m - n * q;
    assert n * (m - q) + n > 0 && n * (m - q) < 2 * n;
    assert m - q > -1 && m - q < 2 by {
      FactorBetween(n, m - q);
    }
  }

  lemma FactorBetween(n: int, k: int)
    requires n > 0 && -n < n * k < 2 * n
    ensures -1 < k < 2
  {
  }

  /** The last straight-line amount can be negative: when the monthly amount was rounded up and
      the quotient and remainder do not cover the excess. This is the exact condition. */
  predicate LinearLastCovered(value: int, life: nat)
    requires life > 0
  {
    MonthlyAmount(value, life) == value / life || value / life + value % life + 1 >= life
  }

  lemma LinearNonNegativeExactly(value: int, life: nat)
    requires life > 0 && value >= 0
    ensures (forall k :: 0 <= k < life ==> LinearPlan(value, life)[k] >= 0) <==> LinearLastCovered(value, life)
  {
    hide MonthlyAmount;
    var m := MonthlyAmount(value, life);
    var plan := LinearPlan(value, life);
    MonthlyNearest(value, life);
    var q, r := value / life, value % life;
    assert value == q * life + r;
    if m == q {
      assert plan[life - 1] == q + r by {
        LastWhen(q, r, life, 0);
      }
    } else {
      assert plan[life - 1] == q + r + 1 - life by {
        LastWhen(q, r, life, 1);
      }
    }
    forall k | 0 <= k < life - 1 ensures plan[k] == m {
    }
  }

  /** Only the last amount can be negative. */
  lemma LinearNegativeIsLast(value: int, life: nat)
    requires life > 0 && value >= 0 && !LinearLastCovered(value, life)
    ensures LinearPlan(value, life)[life - 1] < 0
  {
    hide MonthlyAmount, LinearLastCovered;
    LinearNonNegativeExactly(value, life);
    MonthlyNearest(value, life);
  }

  lemma LastWhen(q: int, r: int, life: int, up: int)
    ensures q * life + r - (life - 1) * (q + up) == q + r + up - life * up
  {
  }

  /** A value of at least life * (life - 1) / 2 cents is always enough. */
  lemma LinearNonNegativeWhenLarge(value: int, life: nat)
    requires life > 0 && 2 * value >= life * (life - 1)
    ensures LinearLastCovered(value, life)
  {
    var q, r := value / life, value % life;
    var m := MonthlyAmount(value, life);
    assert value == life * q + r;
    MonthlyNearest(value, life);
    if m != q {
      assert life * m == life * q + life;
      RoundedUpCovered(q, r, life);
    }
  }

  lemma RoundedUpCovered(q: int, r: int, n: int)
    requires n > 0 && 0 <= r < n && 2 * r >= n
    requires 2 * (n * q + r) >= n * (n - 1)
    ensures q + r + 1 >= n
  {
    // 2 n (q + 1) > n (n - 1), so 2 (q + 1) >= n
    assert n * (2 * (q + 1) - (n - 1)) == 2 * (n * q) + 2 * n - n * (n - 1);
    assert n * (2 * (q + 1) - (n - 1)) > 0;
    assert 2 * (q + 1) - (n - 1) > 0 by {
      PositiveFactor(n, 2 * (q + 1) - (n - 1));
    }
  }

  lemma PositiveFactor(n: int, k: int)
    requires n > 0 && n * k > 0
    ensures k > 0
  {
  }

  /** Thirty-one cents over sixty months: fifty-nine payments of one cent, then minus 28. */
  lemma LinearCanGoNegative()
    ensures LinearPlan(31, 60)[59] == -28
  {
    assert MonthlyAmount(31, 60) == 1 by {
      MonthlyNearest(31, 60);
    }
  }

  // ---------------------------------------------------------------- declining balance

  /** The share of `remaining` at the straight-line rate times the declining factor. */
  function DecliningShare(remaining: int, life: nat, factor: real): real
    requires life > 0
  {
    remaining as real * (1.0 / life as real * factor)
  }

  /** `remaining` spread evenly over `n` months. */
  function EvenShare(remaining: int, n: nat): real
    requires n > 0
  {
    remaining as real / n as real
  }

  /** The unrounded amount of period `i` when `remaining` cents are left. */
  function DegressiveShare(remaining: int, life: nat, i: nat, factor: real): real
    requires i < life
  {
    Min(Max(DecliningShare(remaining, life, factor), EvenShare(remaining, life - i)), remaining as real)
  }

  function DegressiveAmount(remaining: int, life: nat, i: nat, factor: real): int
    requires i < life
  {
    if i == life - 1 then remaining else RoundCents(DegressiveShare(remaining, life, i, factor))
  }

  /** Stops as soon as nothing remains. */
  function DegressivePlan(remaining: int, life: nat, i: nat, factor: real): seq<int>
    requires i < life
    decreases life - i
  {
    var a := DegressiveAmount(remaining, life, i, factor);
    if remaining - a <= 0 || i == life - 1 then [a]
    else [a] + DegressivePlan(remaining - a, life, i + 1, factor)
  }

  lemma EvenShareAtMost(x: int, n: nat, k: int)
    requires n >= 1 && x <= n * k
    ensures EvenShare(x, n) <= k as real
  {
    var d := EvenShare(x, n) - k as real;
    assert EvenShare(x, n) * n as real == x as real;
    RealOfProduct(n, k);
    assert d * n as real == x as real - (n * k) as real;
    RealFactor(d, n as real);
  }

  lemma RealFactor(d: real, n: real)
    requires n > 0.0 && d * n <= 0.0
    ensures d <= 0.0
  {
  }

  lemma EvenShareBounds(x: int, n: nat)
    requires x >= 0 && n >= 1
    ensures 0.0 <= EvenShare(x, n) <= x as real
  {
    assert x * 1 <= n * x;
    EvenShareAtMost(x, n, x);
  }

  /** A cap on the even share, times the number of months. */
  lemma EvenShareCap(x: int, n: nat, a: int)
    requires n >= 1 && EvenShare(x, n) <= a as real + 0.5
    ensures 2 * x <= 2 * (n * a) + n
  {
    RealScale(EvenShare(x, n), a as real + 0.5, n as real);
    assert EvenShare(x, n) * n as real == x as real;
    RealOfProduct(n, a);
    var p := n * a;
    assert (a as real + 0.5) * n as real == p as real + 0.5 * n as real;
    assert (2 * x) as real <= (2 * p + n) as real;
  }

  lemma DecliningShareShrinks(remaining: int, left: int, life: nat, factor: real)
    requires 0 <= left <= remaining && life > 0
    ensures DecliningShare(left, life, factor) <= Max(0.0, DecliningShare(remaining, life, factor))
  {
    ScaledLess(left as real, remaining as real, 1.0 / life as real * factor);
  }

  lemma ScaledLess(l: real, r: real, rate: real)
    requires 0.0 <= l <= r
    ensures l * rate <= Max(0.0, r * rate)
  {
    if rate <= 0.0 {
      assert l * rate <= 0.0;
    } else {
      RealScale(l, r, rate);
    }
  }

  lemma DegressiveAmountBounds(remaining: int, life: nat, i: nat, factor: real)
    requires i < life && remaining >= 0
    ensures 0 <= DegressiveAmount(remaining, life, i, factor) <= remaining
  {
    hide DecliningShare, EvenShare, RoundCents;
    EvenShareBounds(remaining, life - i);
    RoundCentsWithin(DegressiveShare(remaining, life, i, factor), 0, remaining);
  }

  /** At most one line per remaining month, each amount between zero and what remained before
      it, and the amounts add up to the depreciable value exactly. */
  lemma {:induction false} DegressivePlanConserves(remaining: int, life: nat, i: nat, factor: real)
    requires i < life && remaining >= 0
    ensures var plan := DegressivePlan(remaining, life, i, factor);
      && 1 <= |plan| <= life - i
      && Sum(plan) == remaining
      && forall k :: 0 <= k < |plan| ==> 0 <= plan[k] <= remaining - Sum(plan[..k])
    decreases life - i
  {
    hide DegressiveAmount;
    var a := DegressiveAmount(remaining, life, i, factor);
    var plan := DegressivePlan(remaining, life, i, factor);
    DegressiveAmountBounds(remaining, life, i, factor);
    if remaining - a <= 0 || i == life - 1 {
      LastTakesAll(remaining, life, i, factor);
      assert plan == [a] && plan[..0] == [];
      assert [a][1..] == [];
    } else {
      var rest := DegressivePlan(remaining - a, life, i + 1, factor);
      DegressivePlanConserves(remaining - a, life, i + 1, factor);
      SumCons(a, rest);
      hide DegressivePlan, Sum;
      forall k | 0 <= k < |plan| ensures 0 <= plan[k] <= remaining - Sum(plan[..k]) {
        if k > 0 { PrefixCons(a, rest, k); } else { SumEmptyPrefix(plan); }
      }
    }
  }

  lemma LastTakesAll(remaining: int, life: nat, i: nat, factor: real)
    requires i < life
    ensures i == life - 1 ==> DegressiveAmount(remaining, life, i, factor) == remaining
  {}

  lemma SumCons(a: int, rest: seq<int>)
    ensures Sum([a] + rest) == a + Sum(rest)
  {
    assert ([a] + rest)[1..] == rest;
  }

  lemma PrefixCons(a: int, rest: seq<int>, k: nat)
    requires 0 < k <= |rest| + 1
    ensures Sum(([a] + rest)[..k]) == a + Sum(rest[..k - 1])
  {
    assert ([a] + rest)[..k] == [a] + rest[..k - 1];
    SumCons(a, rest[..k - 1]);
  }

  /** What is left after one period is at most one cent per remaining month above the amount
      just taken. */
  lemma EvenTailBound(remaining: int, n: nat, a: int)
    requires n >= 2 && remaining >= 0
    requires EvenShare(remaining, n) <= a as real + 0.5
    ensures remaining - a <= (n - 1) * (a + 1)
  {
    hide EvenShare;
    EvenShareCap(remaining, n, a);
    assert (n - 1) * (a + 1) == n * a - a + n - 1;
  }

  /** Rounding every period can make an amount larger than its predecessor, by one cent at most. */
  lemma DegressiveNextAmount(remaining: int, life: nat, i: nat, factor: real)
    requires i + 1 < life && remaining >= 0
    ensures var a := DegressiveAmount(remaining, life, i, factor);
      DegressiveAmount(remaining - a, life, i + 1, factor) <= a + 1
  {
    hide DecliningShare, EvenShare, RoundCents;
    var a := DegressiveAmount(remaining, life, i, factor);
    var left := remaining - a;
    DegressiveAmountBounds(remaining, life, i, factor);
    EvenShareBounds(remaining, life - i);
    EvenTailBound(remaining, life - i, a);
    if i + 1 == life - 1 {
      assert (life - i - 1) * (a + 1) == a + 1;
    } else {
      EvenShareAtMost(left, life - i - 1, a + 1);
      EvenShareBounds(left, life - i - 1);
      DecliningShareShrinks(remaining, left, life, factor);
      RoundCentsWithin(DegressiveShare(left, life, i + 1, factor), 0, a + 1);
    }
  }

  ghost predicate NearlyDecreasing(s: seq<int>)
  {
    forall j, k :: 0 <= j && k == j + 1 && k < |s| ==> s[k] <= s[j] + 1
  }

  lemma {:induction false} DegressiveNearlyDecreasing(remaining: int, life: nat, i: nat, factor: real)
    requires i < life && remaining >= 0
    ensures NearlyDecreasing(DegressivePlan(remaining, life, i, factor))
    decreases life - i
  {
    hide DegressiveAmount;
    var a := DegressiveAmount(remaining, life, i, factor);
    DegressiveAmountBounds(remaining, life, i, factor);
    if remaining - a <= 0 || i == life - 1 {
    } else {
      var rest := DegressivePlan(remaining - a, life, i + 1, factor);
      DegressiveNearlyDecreasing(remaining - a, life, i + 1, factor);
      DegressiveNextAmount(remaining, life, i, factor);
      assert rest[0] == DegressiveAmount(remaining - a, life, i + 1, factor);
    }
  }

  /** The one-cent slack is needed: one cent over two months is taken in the second. */
  lemma DegressiveCanIncrease()
    ensures DegressivePlan(1, 2, 0, 1.0) == [0, 1]
  {
    assert DegressiveShare(1, 2, 0, 1.0) == 0.5;
    assert RoundCents(0.5) == 0;
    assert DegressivePlan(1, 2, 1, 1.0) == [1];
  }

  // ---------------------------------------------------------------- what the factor does

  lemma RateForm(r: real, n: real, f: real)
    requires n > 0.0
    ensures r * (1.0 / n * f) == r * f / n
  {
    var q := 1.0 / n;
    assert q * n == 1.0;
    var x := r * f / n;
    assert x * n == r * f;
    assert (r * (q * f)) * n == (r * f) * (q * n);
    SameProduct(r * (q * f), x, n);
  }

  lemma SameProduct(a: real, b: real, n: real)
    requires n > 0.0 && a * n == b * n
    ensures a == b
  {}

  /** What a month should take when `r` cents are left: the larger of the declining and the even
      share, and at most what is left. */
  function Wanted(r: int, life: nat, month: nat, factor: real): real
    requires month < life
  {
    var declining := r as real * factor / life as real;
    var even := r as real / (life - month) as real;
    var larger := if declining > even then declining else even;
    if larger < r as real then larger else r as real
  }

  lemma ShareIsWanted(r: int, life: nat, month: nat, factor: real)
    requires month < life
    ensures DegressiveShare(r, life, month, factor) == Wanted(r, life, month, factor)
  {
    RateForm(r as real, life as real, factor);
  }

  /** Every month but the last takes what it should, rounded to the nearest cent; the last one
      takes what is left. */
  lemma {:induction false} DegressiveTakesWanted(remaining: int, life: nat, i: nat, factor: real, k: nat)
    requires i < life && remaining >= 0 && k < |DegressivePlan(remaining, life, i, factor)|
    ensures i + k < life
    ensures var plan := DegressivePlan(remaining, life, i, factor);
      var left := remaining - Sum(plan[..k]);
      if i + k == life - 1 then plan[k] == left
      else plan[k] == RoundCents(Wanted(left, life, i + k, factor))
           && -0.5 <= plan[k] as real - Wanted(left, life, i + k, factor) <= 0.5
    decreases k
  {
    hide RoundCents, DegressiveShare, Wanted;
    var plan := DegressivePlan(remaining, life, i, factor);
    var a := DegressiveAmount(remaining, life, i, factor);
    DegressiveAmountBounds(remaining, life, i, factor);
    if k == 0 {
      assert plan[..0] == [];
      ShareIsWanted(remaining, life, i, factor);
    } else {
      var rest := DegressivePlan(remaining - a, life, i + 1, factor);
      assert plan == [a] + rest;
      DegressiveTakesWanted(remaining - a, life, i + 1, factor, k - 1);
      PrefixCons(a, rest, k);
    }
  }

  /** `value` after `k` months that each keep the fraction `q` of what is left. */
  function Declined(value: real, q: real, k: nat): real
  {
    if k == 0 then value else Times(q, Declined(value, q, k - 1))
  }

  lemma WantedWhenLarger(r: int, life: nat, month: nat, factor: real, share: real)
    requires month < life && share == r as real * factor / life as real
    requires r as real / (life - month) as real <= share <= r as real
    ensures Wanted(r, life, month, factor) == share
  {}

  lemma Complement(x: real, rate: real)
    ensures x - Times(1.0 - rate, x) == Times(x, rate)
  {
    assert (1.0 - rate) * x == x - x * rate;
  }

  lemma PartOf(x: real, rate: real)
    requires x >= 0.0 && rate <= 1.0
    ensures Times(x, rate) <= x
  {
    assert x * (1.0 - rate) >= 0.0;
    assert x * (1.0 - rate) == x - x * rate;
  }

  /** While the declining share is the larger one, it is what a month should take. */
  lemma DecliningWanted(r: int, life: nat, month: nat, factor: real)
    requires month < life && r >= 0 && 0.0 <= factor <= life as real
    requires factor * (life - month) as real >= life as real
    ensures Wanted(r, life, month, factor) == r as real - Times(1.0 - factor / life as real, r as real)
  {
    hide Wanted, Times;
    var n, m, x := life as real, (life - month) as real, r as real;
    var rate := factor / n;
    QuotientForm(x, factor, n);
    AtMostOne(factor, n);
    PartOf(x, rate);
    EvenBelow(x, rate, m, factor, n);
    WantedWhenLarger(r, life, month, factor, Times(x, rate));
    Complement(x, rate);
  }

  lemma QuotientForm(x: real, f: real, n: real)
    requires n > 0.0
    ensures x * f / n == Times(x, f / n)
  {
    var a, b := x * f / n, x * (f / n);
    assert a * n == x * f;
    assert b * n == x * ((f / n) * n);
    SameProduct(a, b, n);
  }

  lemma AtMostOne(f: real, n: real)
    requires n > 0.0 && 0.0 <= f <= n
    ensures 0.0 <= f / n <= 1.0
  {
    var q := f / n;
    assert q * n == f;
  }

  lemma EvenBelow(x: real, rate: real, m: real, f: real, n: real)
    requires x >= 0.0 && n > 0.0 && m > 0.0 && rate == f / n && f * m >= n
    ensures x / m <= Times(x, rate)
  {
    assert rate * n == f;
    assert (rate * m) * n == f * m;
    AtLeast(rate * m, 1.0, n);
    var e := x / m;
    assert e * m == x;
    assert (x * rate) * m == x * (rate * m);
    assert x * (rate * m) >= x;
    AtLeast(x * rate, e, m);
  }

  lemma AtLeast(a: real, b: real, n: real)
    requires n > 0.0 && a * n >= b * n
    ensures a >= b
  {}

  lemma FractionOf(q: real, d: real)
    requires 0.0 <= q <= 1.0 && d >= 0.0
    ensures 0.0 <= Times(q, d) <= d
  {
    hide Times;
    NonNegativeTimes(q, d);
    NonNegativeTimes(1.0 - q, d);
    RestOf(q, d);
  }

  lemma NonNegativeTimes(a: real, b: real)
    requires a >= 0.0 && b >= 0.0
    ensures Times(a, b) >= 0.0
  {}

  lemma RestOf(q: real, d: real)
    ensures Times(1.0 - q, d) == d - Times(q, d)
  {}

  lemma TimesNegated(q: real, d: real)
    ensures Times(q, -d) == -Times(q, d)
  {}

  /** Distances do not grow when both ends are scaled by a fraction. */
  lemma ScaledGap(q: real, a: real, b: real, gap: real)
    requires 0.0 <= q <= 1.0 && gap >= 0.0 && -gap <= a - b <= gap
    ensures -gap <= Times(q, a) - Times(q, b) <= gap
  {
    hide Times;
    var d := a - b;
    assert b + d == a;
    TimesSplit(q, b, d);
    TimesNegated(q, d);
    if d >= 0.0 { FractionOf(q, d); } else { FractionOf(q, -d); }
  }

  /** Whether the factor still beats the even share in a month. */
  predicate Beats(factor: real, life: nat, month: nat)
  {
    month < life && factor * (life - month) as real >= life as real
  }

  function LeftAfter(value: int, life: nat, factor: real, k: nat): int
    requires life > 0 && k <= |DegressivePlan(value, life, 0, factor)|
  {
    value - Sum(DegressivePlan(value, life, 0, factor)[..k])
  }

  lemma DecliningStep(value: int, life: nat, factor: real, k: nat)
    requires life > 0 && value >= 0 && 0.0 <= factor <= life as real
    requires k < |DegressivePlan(value, life, 0, factor)| && Beats(factor, life, k)
    ensures var gap := LeftAfter(value, life, factor, k + 1) as real
                       - Times(1.0 - factor / life as real, LeftAfter(value, life, factor, k) as real);
      -0.5 <= gap <= 0.5
  {
    var plan := DegressivePlan(value, life, 0, factor);
    var before := LeftAfter(value, life, factor, k);
    DegressivePlanConserves(value, life, 0, factor);
    DegressiveTakesWanted(value, life, 0, factor, k);
    SumPrefixStep(plan, k);
    DecliningWanted(before, life, k, factor);
    LastMonthDeclines(before, life, k, factor);
    hide Times, Wanted, DegressivePlan, Sum, RoundCents, Beats;
  }

  /** The declining balance: as long as the factor beats the even share, what is left after `k`
      months is the value times the `k`-th power of one minus the monthly rate, give or take half
      a cent a month. */
  lemma {:induction false} DecliningBalance(value: int, life: nat, factor: real, k: nat)
    requires life > 0 && value >= 0 && 0.0 <= factor <= life as real
    requires k <= |DegressivePlan(value, life, 0, factor)|
    requires k > 0 ==> Beats(factor, life, k - 1)
    ensures var gap := LeftAfter(value, life, factor, k) as real
                       - Declined(value as real, 1.0 - factor / life as real, k);
      -0.5 * k as real <= gap <= 0.5 * k as real
    decreases k
  {
    if k == 0 {
      assert DegressivePlan(value, life, 0, factor)[..0] == [];
    } else {
      var q := 1.0 - factor / life as real;
      if k > 1 { StillBeats(factor, life, k - 1); }
      AtMostOne(factor, life as real);
      DecliningBalance(value, life, factor, k - 1);
      DecliningStep(value, life, factor, k - 1);
      hide Times, DegressivePlan, Beats, LeftAfter;
      ScaledGap(q, LeftAfter(value, life, factor, k - 1) as real, Declined(value as real, q, k - 1),
                0.5 * (k - 1) as real);
    }
  }

  lemma StillBeats(factor: real, life: nat, month: nat)
    requires 0.0 <= factor && month > 0 && Beats(factor, life, month)
    ensures Beats(factor, life, month - 1)
  {
    var m := (life - month) as real;
    assert (life - (month - 1)) as real == m + 1.0;
    assert factor * (m + 1.0) == factor * m + factor;
  }

  /** In the last month the factor can only beat the even share by taking everything. */
  lemma LastMonthDeclines(r: int, life: nat, month: nat, factor: real)
    requires month < life && r >= 0 && factor * (life - month) as real >= life as real
    ensures month == life - 1 ==> Wanted(r, life, month, factor) == r as real
  {
    if month == life - 1 {
      var m := (life - month) as real;
      assert m == 1.0;
      assert r as real / m == r as real;
    }
  }

  /** Twelve pesos over twelve months at twice the straight-line rate begin with two pesos. */
  lemma DoubleDeclining()
    ensures DegressivePlan(1200, 12, 0, 2.0)[0] == 200
  {
    assert Wanted(1200, 12, 0, 2.0) == 200.0;
    RoundCentsOfInt(200);
    hide RoundCents, Wanted;
    DegressivePlanConserves(1200, 12, 0, 2.0);
    DegressiveTakesWanted(1200, 12, 0, 2.0, 0);
    assert DegressivePlan(1200, 12, 0, 2.0)[..0] == [];
  }

  // ---------------------------------------------------------------- the schedule

  function Plan(value: int, life: int, kind: Method): seq<int>
  {
    if value <= 0 || life <= 0 then []
    else if kind.Linear? then LinearPlan(value, life)
    else DegressivePlan(value, life, 0, kind.factor)
  }

  function Schedule(value: int, life: int, kind: Method, firstMonth: int): seq<Line>
  {
    var plan := Plan(value, life, kind);
    seq(|plan|, k requires 0 <= k < |plan| => LineAt(plan, value, firstMonth, k))
  }

  function Amounts(lines: seq<Line>): seq<int>
  {
    seq(|lines|, k requires 0 <= k < |lines| => lines[k].amount)
  }

  /** No line of the schedule is negative. */
  predicate Covered(value: int, life: int, kind: Method)
  {
    value > 0 && life > 0 && kind.Linear? ==> LinearLastCovered(value, life)
  }

  /** Both methods conserve the depreciable value, and `Covered` is exactly the condition under
      which no period takes a negative amount. */
  lemma PlanConserves(value: int, life: int, kind: Method)
    requires value > 0 && life > 0
    ensures var plan := Plan(value, life, kind);
      && 1 <= |plan| <= life
      && Sum(plan) == value
      && ((forall k :: 0 <= k < |plan| ==> plan[k] >= 0) <==> Covered(value, life, kind))
  {
    if kind.Linear? {
      LinearPlanConserves(value, life);
      LinearNonNegativeExactly(value, life);
    } else {
      DegressivePlanConserves(value, life, 0, kind.factor);
    }
  }

  function LineAt(plan: seq<int>, value: int, firstMonth: int, k: nat): Line
    requires k < |plan|
  {
    Line(k + 1, firstMonth + k, plan[k], value - Sum(plan[..k + 1]))
  }

  ghost predicate FollowsPlan(lines: seq<Line>, plan: seq<int>, value: int, firstMonth: int)
  {
    |lines| <= |plan| && forall k :: 0 <= k < |lines| ==> lines[k] == LineAt(plan, value, firstMonth, k)
  }

  /** Appending the next line of the plan. */
  lemma FollowsPlanStep(lines: seq<Line>, plan: seq<int>, value: int, firstMonth: int, amount: int)
    requires |lines| < |plan| && FollowsPlan(lines, plan, value, firstMonth)
    requires amount == plan[|lines|]
    ensures Sum(Amounts(lines)) == Sum(plan[..|lines|])
    ensures Sum(plan[..|lines| + 1]) == Sum(plan[..|lines|]) + amount
    ensures FollowsPlan(lines + [Line(|lines| + 1, firstMonth + |lines|, amount,
                                      value - Sum(plan[..|lines|]) - amount)], plan, value, firstMonth)
  {
    assert Amounts(lines) == plan[..|lines|];
    SumPrefixStep(plan, |lines|);
  }

  method GenerateLinear(value: int, life: nat, firstMonth: int) returns (lines: seq<Line>)
    requires value > 0 && life > 0
    ensures lines == Schedule(value, life, Linear, firstMonth)
  {
    hide MonthlyAmount, Sum, LineAt;
    ghost var plan := LinearPlan(value, life);
    LinearRemaining(value, life);
    var remaining := value;
    var month := firstMonth;
    lines := [];
    for i := 0 to life
      invariant |lines| == i && month == firstMonth + i
      invariant FollowsPlan(lines, plan, value, firstMonth)
      invariant i < life ==> remaining == value - Sum(plan[..i])
    {
      var amount;
      if i == life - 1 {
        amount := remaining;
      } else {
        amount := MonthlyAmount(value, life);
        remaining := remaining - amount;
      }
      FollowsPlanStep(lines, plan, value, firstMonth, amount);
      lines := lines + [Line(i + 1, month, amount, value - Sum(Amounts(lines)) - amount)];
      month := month + 1;
    }
  }

  lemma LinearRemaining(value: int, life: nat)
    requires life > 0
    ensures var plan := LinearPlan(value, life);
      && plan[life - 1] == value - Sum(plan[..life - 1])
      && Sum(plan[..0]) == 0
  {
    var plan := LinearPlan(value, life);
    LinearPlanConserves(value, life);
    SumPrefixStep(plan, life - 1);
    assert plan[..life] == plan;
  }

  method DegressivePeriod(remaining: int, life: nat, i: nat, factor: real) returns (amount: int)
    requires i < life
    ensures amount == DegressiveAmount(remaining, life, i, factor)
    ensures i == life - 1 ==> amount == remaining
  {
    hide DecliningShare, EvenShare, RoundCents;
    var degressive := DecliningShare(remaining, life, factor);
    var linear := EvenShare(remaining, life - i);
    amount := RoundCents(Min(Max(degressive, linear), remaining as real));
    if i == life - 1 {
      amount := remaining;
    }
  }

  method GenerateDegressive(value: int, life: nat, factor: real, firstMonth: int) returns (lines: seq<Line>)
    requires value > 0 && life > 0
    ensures lines == Schedule(value, life, Degressive(factor), firstMonth)
  {
    hide DegressiveAmount, Sum, LineAt;
    ghost var plan := DegressivePlan(value, life, 0, factor);
    var remaining := value;
    var month := firstMonth;
    lines := [];
    assert plan[0..] == plan;
    SumEmptyPrefix(plan);
    for i := 0 to life
      invariant |lines| == i && month == firstMonth + i
      invariant i < |plan| && i < life
      invariant plan[i..] == DegressivePlan(remaining, life, i, factor)
      invariant FollowsPlan(lines, plan, value, firstMonth)
      invariant remaining == value - Sum(plan[..i])
    {
      var amount := DegressivePeriod(remaining, life, i, factor);
      ghost var tail := DegressivePlan(remaining, life, i, factor);
      assert amount == tail[0] == plan[i];
      FollowsPlanStep(lines, plan, value, firstMonth, amount);
      remaining := remaining - amount;
      lines := lines + [Line(i + 1, month, amount, remaining)];
      month := month + 1;
      if remaining <= 0 {
        assert |plan| == i + 1;
        break;
      }
      assert plan[i + 1..] == tail[1..] == DegressivePlan(remaining, life, i + 1, factor);
    }
  }

  lemma SumEmptyPrefix(s: seq<int>)
    ensures Sum(s[..0]) == 0
  {
    assert s[..0] == [];
  }

  method GenerateSchedule(value: int, life: int, kind: Method, firstMonth: int) returns (lines: seq<Line>)
    ensures lines == Schedule(value, life, kind, firstMonth)
  {
    if value <= 0 || life <= 0 {
      lines := [];
    } else {
      match kind
      case Linear => lines := GenerateLinear(value, life, firstMonth);
      case Degressive(factor) => lines := GenerateDegressive(value, life, factor, firstMonth);
    }
  }
}
