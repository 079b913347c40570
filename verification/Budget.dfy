/**
 Budget periods on the Gregorian calendar. A date is a month number (twelve times the year plus
 the month counted from zero) and a day of that month; adding months keeps the day or clamps it to the
 end of a shorter month. Days are counted by their ordinal.
 */
module Budget {
  import opened Prelude
  import opened Money

  predicate Leap(year: nat) { year % 4 == 0 && (year % 100 != 0 || year % 400 == 0) }

  function DaysIn(month: nat): nat
  {
    var m := month % 12;
    if m == 1 then (if Leap(month / 12) then 29 else 28)
    else if m == 3 || m == 5 || m == 8 || m == 10 then 30
    else 31
  }

  /** The ordinal of the first day of a month. */
  function MonthStart(month: nat): nat
  {
    if month == 0 then 0 else MonthStart(month - 1) + DaysIn(month - 1)
  }

  datatype Date = Date(month: nat, day: nat)
  {
    ghost predicate Valid() { 1 <= day <= DaysIn(month) }

    function Ordinal(): int { MonthStart(month) + day }

    function AddMonths(n: nat): Date
    {
      Date(month + n, if day <= DaysIn(month + n) then day else DaysIn(month + n))
    }
  }

  datatype PeriodType = Monthly | Quarterly | Yearly

  function Step(t: PeriodType): nat
  {
    match t
    case Monthly => 1
    case Quarterly => 3
    case Yearly => 12
  }

  lemma {:induction false} MonthsAscend(m: nat, n: nat)
    requires m < n
    ensures MonthStart(m) + DaysIn(m) <= MonthStart(n)
    decreases n - m
  {
    if m + 1 < n { MonthsAscend(m, n - 1); }
  }

  /** Adding at least one month always gives a later, valid date, clamped or not. */
  lemma AddMonthsAdvances(d: Date, n: nat)
    requires d.Valid() && n >= 1
    ensures d.AddMonths(n).Valid() && d.AddMonths(n).Ordinal() > d.Ordinal()
  {
    hide DaysIn;
    MonthsAscend(d.month, d.month + n);
    DaysPositive(d.month + n);
  }

  lemma DaysPositive(month: nat)
    ensures DaysIn(month) >= 28
  {}

  // ---------------------------------------------------------------- the calendar

  /** The lengths of the months of a year. */
  lemma MonthLengths(year: nat, m: nat)
    requires m < 12
    ensures DaysIn(12 * year + m)
         == [31, if Leap(year) then 29 else 28, 31, 30, 31, 30, 31, 31, 30, 31, 30, 31][m]
  {
    MonthOfYear(year, m);
  }

  lemma MonthOfYear(year: nat, m: nat)
    requires m < 12
    ensures (12 * year + m) % 12 == m && (12 * year + m) / 12 == year
  {}

  lemma YearLength(year: nat)
    ensures MonthStart(12 * year + 12) == MonthStart(12 * year) + 365 + (if Leap(year) then 1 else 0)
  {
    hide MonthStart, Leap;
    MonthsFrom(year, 0);
    MonthsFrom(year, 4);
    MonthsFrom(year, 8);
  }

  /** Four months at a time. */
  lemma MonthsFrom(year: nat, m: nat)
    requires m <= 8
    ensures var k := 12 * year + m;
      var days := [31, if Leap(year) then 29 else 28, 31, 30, 31, 30, 31, 31, 30, 31, 30, 31];
      MonthStart(k + 4) == MonthStart(k) + days[m] + days[m + 1] + days[m + 2] + days[m + 3]
  {
    hide DaysIn, Leap;
    var k := 12 * year + m;
    MonthLengths(year, m);
    MonthLengths(year, m + 1);
    MonthLengths(year, m + 2);
    MonthLengths(year, m + 3);
    assert MonthStart(k + 1) == MonthStart(k) + DaysIn(k);
    assert MonthStart(k + 2) == MonthStart(k + 1) + DaysIn(k + 1);
    assert MonthStart(k + 3) == MonthStart(k + 2) + DaysIn(k + 2);
  }

  /** Days before a year on the Gregorian calendar, counted from year zero: a leap day every four
      years, except every hundred, but again every four hundred. */
  lemma {:induction false} YearStart(year: nat)
    ensures MonthStart(12 * year) == 365 * year + (year + 3) / 4 - (year + 99) / 100 + (year + 399) / 400
  {
    if year > 0 {
      hide MonthStart, Leap;
      var before := year - 1;
      YearStart(before);
      YearLength(before);
      LeapDays(before);
      assert 12 * year == 12 * before + 12;
    } else {
      assert MonthStart(0) == 0;
    }
  }

  lemma LeapDays(year: nat)
    ensures (year + 4) / 4 - (year + 100) / 100 + (year + 400) / 400
         == (year + 3) / 4 - (year + 99) / 100 + (year + 399) / 400 + (if Leap(year) then 1 else 0)
  {
    NextOfFour(year);
    NextOfHundred(year);
    NextOfFourHundred(year);
    LeapByMultiples(year);
    UpIs(year);
    hide Leap, Up;
    Combined(Up(year, 4), Up(year, 100), Up(year, 400), year % 4 == 0, year % 100 == 0, year % 400 == 0);
  }

  /** The multiples of `n` below a number. */
  function Up(y: nat, n: nat): nat
    requires n > 0
  {
    (y + n - 1) / n
  }

  lemma UpIs(y: nat)
    ensures Up(y, 4) == (y + 3) / 4 && Up(y, 100) == (y + 99) / 100 && Up(y, 400) == (y + 399) / 400
  {}

  lemma LeapByMultiples(year: nat)
    ensures Leap(year) <==> year % 4 == 0 && (year % 100 != 0 || year % 400 == 0)
    ensures year % 400 == 0 ==> year % 100 == 0
    ensures year % 100 == 0 ==> year % 4 == 0
  {
    if year % 400 == 0 { HundredDivides(year, year / 400); }
    if year % 100 == 0 { FourDivides(year, year / 100); }
  }

  lemma HundredDivides(y: nat, q: nat)
    requires y == 400 * q
    ensures y % 100 == 0
  {
    var k := 4 * q;
    assert y == 100 * k;
  }

  lemma FourDivides(y: nat, q: nat)
    requires y == 100 * q
    ensures y % 4 == 0
  {
    var k := 25 * q;
    assert y == 4 * k;
  }

  lemma Combined(a: int, b: int, c: int, by4: bool, by100: bool, by400: bool)
    requires (by400 ==> by100) && (by100 ==> by4)
    ensures (a + (if by4 then 1 else 0)) - (b + (if by100 then 1 else 0)) + (c + (if by400 then 1 else 0))
         == a - b + c + (if by4 && (!by100 || by400) then 1 else 0)
  {}

  /** Counting the multiples of four, of a hundred and of four hundred. */
  lemma NextOfFour(y: nat)
    ensures (y + 4) / 4 == Up(y, 4) + (if y % 4 == 0 then 1 else 0)
  {
    var q, r := y / 4, y % 4;
    assert y == 4 * q + r;
  }

  lemma NextOfHundred(y: nat)
    ensures (y + 100) / 100 == Up(y, 100) + (if y % 100 == 0 then 1 else 0)
  {
    var q, r := y / 100, y % 100;
    assert y == 100 * q + r;
    assert (100 * q + (r + 100)) / 100 == q + 1;
  }

  lemma NextOfFourHundred(y: nat)
    ensures (y + 400) / 400 == Up(y, 400) + (if y % 400 == 0 then 1 else 0)
  {
    var q, r := y / 400, y % 400;
    assert y == 400 * q + r;
    assert (400 * q + (r + 400)) / 400 == q + 1;
  }

  /** The day after a date is its successor in the month, or the first of the next month. */
  lemma NextDay(d: Date)
    requires d.Valid()
    ensures var next := if d.day < DaysIn(d.month) then Date(d.month, d.day + 1) else Date(d.month + 1, 1);
      next.Ordinal() == d.Ordinal() + 1
  {}

  /** Adding months keeps the day, or takes the last day of a shorter month. */
  lemma AddMonthsExactly(d: Date, n: nat)
    ensures d.AddMonths(n).month == d.month + n
    ensures d.AddMonths(n).day == MinInt(d.day, DaysIn(d.month + n))
  {
    hide DaysIn;
  }

  // ---------------------------------------------------------------- periods

  /** First and last day of each period. */
  datatype Period = Period(first: int, last: int)

  function Periods(current: Date, until: Date, step: nat): seq<Period>
    requires current.Valid() && step >= 1
    decreases until.Ordinal() - current.Ordinal()
  {
    if current.Ordinal() >= until.Ordinal() then []
    else
      AddMonthsAdvances(current, step);
      var next := current.AddMonths(step);
      [Period(current.Ordinal(), MinInt(next.Ordinal() - 1, until.Ordinal()))] + Periods(next, until, step)
  }

  /** The start of period `k`, walked step by step as the loop does. */
  function Boundary(current: Date, step: nat, k: nat): Date
    decreases k
  {
    if k == 0 then current else Boundary(current.AddMonths(step), step, k - 1)
  }

  ghost predicate BoundaryLands(current: Date, until: Date, step: nat)
  {
    exists k: nat :: Boundary(current, step, k).Ordinal() == until.Ordinal()
  }

  ghost predicate Covers(periods: seq<Period>, day: int)
  {
    exists i :: 0 <= i < |periods| && periods[i].first <= day <= periods[i].last
  }

  lemma {:induction false} BoundaryAfter(current: Date, step: nat, k: nat)
    requires current.Valid() && step >= 1
    ensures Boundary(current, step, k).Valid() && Boundary(current, step, k).Ordinal() >= current.Ordinal() + k
    decreases k
  {
    if k > 0 {
      AddMonthsAdvances(current, step);
      BoundaryAfter(current.AddMonths(step), step, k - 1);
    }
  }

  lemma BoundaryShift(current: Date, until: Date, step: nat)
    requires current.Ordinal() != until.Ordinal()
    ensures BoundaryLands(current, until, step) <==> BoundaryLands(current.AddMonths(step), until, step)
  {
    hide *;
    if BoundaryLands(current, until, step) {
      LandsLater(current, until, step);
    }
    if BoundaryLands(current.AddMonths(step), until, step) {
      LandsEarlier(current, until, step);
    }
  }

  lemma LandsLater(current: Date, until: Date, step: nat)
    requires current.Ordinal() != until.Ordinal() && BoundaryLands(current, until, step)
    ensures BoundaryLands(current.AddMonths(step), until, step)
  {
    var k: nat :| Boundary(current, step, k).Ordinal() == until.Ordinal();
    assert k > 0;
    assert Boundary(current.AddMonths(step), step, k - 1).Ordinal() == until.Ordinal();
  }

  lemma LandsEarlier(current: Date, until: Date, step: nat)
    requires BoundaryLands(current.AddMonths(step), until, step)
    ensures BoundaryLands(current, until, step)
  {
    var k: nat :| Boundary(current.AddMonths(step), step, k).Ordinal() == until.Ordinal();
    assert Boundary(current, step, k + 1).Ordinal() == until.Ordinal();
  }

  /** The periods start at the first day, follow each other without gap or overlap, never pass
      the last day, and are never empty. */
  lemma {:induction false} PeriodsTile(current: Date, until: Date, step: nat)
    requires current.Valid() && step >= 1
    ensures var ps := Periods(current, until, step);
      && (ps == [] <==> current.Ordinal() >= until.Ordinal())
      && (ps != [] ==> ps[0].first == current.Ordinal())
      && (forall i :: 0 <= i < |ps| ==> ps[i].first <= ps[i].last <= until.Ordinal())
      && (forall i, j :: 0 <= i && j == i + 1 && j < |ps| ==> ps[j].first == ps[i].last + 1)
    decreases until.Ordinal() - current.Ordinal()
  {
    if current.Ordinal() < until.Ordinal() {
      AddMonthsAdvances(current, step);
      PeriodsTile(current.AddMonths(step), until, step);
    }
  }

  /** Every day of the range is covered, except exactly the last day when a period boundary
      lands on it. */
  lemma {:induction false} PeriodsCover(current: Date, until: Date, step: nat, day: int)
    requires current.Valid() && step >= 1
    ensures Covers(Periods(current, until, step), day) <==>
      current.Ordinal() <= day <= until.Ordinal() && !(day == until.Ordinal() && BoundaryLands(current, until, step))
    decreases until.Ordinal() - current.Ordinal()
  {
    if current.Ordinal() < until.Ordinal() {
      AddMonthsAdvances(current, step);
      var next := current.AddMonths(step);
      PeriodsCover(next, until, step, day);
      BoundaryShift(current, until, step);
      CoversSplit(current, until, step, day);
      if next.Ordinal() > until.Ordinal() {
        PastTheEnd(next, until, step);
      }
    } else if current.Ordinal() == until.Ordinal() {
      assert Boundary(current, step, 0).Ordinal() == until.Ordinal();
    }
  }

  /** For instance: January 2024 to 1 February 2024 by month covers 31 January and not 1 February. */
  lemma LastDayMissed()
    ensures var start, until := Date(24288, 1), Date(24289, 1);
      var periods := Periods(start, until, 1);
      !Covers(periods, until.Ordinal()) && Covers(periods, until.Ordinal() - 1)
  {
    var start, until := Date(24288, 1), Date(24289, 1);
    assert Boundary(start.AddMonths(1), 1, 0) == until;
    assert Boundary(start, 1, 1) == until;
    AddMonthsAdvances(start, 1);
    PeriodsCover(start, until, 1, until.Ordinal());
    PeriodsCover(start, until, 1, until.Ordinal() - 1);
  }

  lemma FirstOfMonth(month: nat, n: nat)
    ensures Date(month, 1).Valid() && Date(month, 1).AddMonths(n) == Date(month + n, 1)
  {
    DaysPositive(month);
    DaysPositive(month + n);
  }

  ghost predicate ConsistsOf(ps: seq<Period>, month: nat, step: nat, n: nat)
  {
    |ps| == n && forall i: nat :: i < n ==> ps[i] == PeriodOfMonths(month, i, step)
  }

  /** A range of `n` whole periods of `step` months has exactly these `n` periods. */
  lemma {:induction false} WholePeriods(month: nat, step: nat, n: nat, end: nat)
    requires step >= 1 && n >= 1 && end == month + n * step
    ensures Date(month, 1).Valid()
    ensures var until := Date(end - 1, DaysIn(end - 1));
      ConsistsOf(Periods(Date(month, 1), until, step), month, step, n)
    decreases n
  {
    hide DaysIn, MonthStart, Periods, PeriodOfMonths;
    var until := Date(end - 1, DaysIn(end - 1));
    FirstOfMonth(month, step);
    NStep(n, step);
    EndOfMonths(month, step, end);
    PeriodsUnfold(Date(month, 1), until, step);
    var next := Periods(Date(month + step, 1), until, step);
    if n == 1 {
      NoPeriods(Date(month + step, 1), until, step);
    } else {
      WholePeriods(month + step, step, n - 1, end);
      forall i: nat | 0 < i < n ensures PeriodOfMonths(month + step, i - 1, step) == PeriodOfMonths(month, i, step) {
        Shifted(month, step, i);
      }
    }
    FirstPeriod(month, step, end);
  }

  lemma EndOfMonths(month: nat, step: nat, end: nat)
    requires step >= 1 && month + step <= end
    ensures Date(end - 1, DaysIn(end - 1)).Ordinal() == MonthStart(end)
    ensures Date(month, 1).Ordinal() < MonthStart(end)
    ensures month + step == end ==> Date(month + step, 1).Ordinal() > MonthStart(end)
    ensures MonthStart(month + step) <= MonthStart(end)
  {
    hide DaysIn;
    DaysPositive(month);
    MonthsAscend(month, end);
    if month + step < end { MonthsAscend(month + step, end); }
  }

  lemma NoPeriods(current: Date, until: Date, step: nat)
    requires current.Valid() && step >= 1 && current.Ordinal() >= until.Ordinal()
    ensures Periods(current, until, step) == []
  {}

  lemma FirstPeriod(month: nat, step: nat, end: nat)
    requires step >= 1 && month + step <= end
    ensures CurrentPeriod(Date(month, 1), Date(end - 1, DaysIn(end - 1)), step) == PeriodOfMonths(month, 0, step)
  {
    hide DaysIn, MonthStart;
    FirstOfMonth(month, step);
    EndOfMonths(month, step, end);
  }

  lemma NStep(n: nat, step: nat)
    requires n >= 1
    ensures n * step == step + (n - 1) * step && (n - 1) * step >= 0
  {}

  lemma Shifted(month: nat, step: nat, i: nat)
    requires i > 0
    ensures PeriodOfMonths(month + step, i - 1, step) == PeriodOfMonths(month, i, step)
  {
    assert month + step + (i - 1) * step == month + i * step;
  }

  /** From the first day of a month to the last day before the month `step` months later. */
  function PeriodOfMonths(month: nat, i: nat, step: nat): Period
  {
    var m := month + i * step;
    Period(Date(m, 1).Ordinal(), MonthStart(m + step))
  }

  /** A budget for a whole year has twelve, four or one periods: its months, its quarters or itself. */
  lemma WholeYear(year: nat)
    ensures Date(12 * year, 1).Valid() && Step(Monthly) >= 1 && Step(Quarterly) >= 1 && Step(Yearly) >= 1
    ensures var start, until := Date(12 * year, 1), Date(12 * year + 11, 31);
      && ConsistsOf(Periods(start, until, Step(Monthly)), 12 * year, 1, 12)
      && ConsistsOf(Periods(start, until, Step(Quarterly)), 12 * year, 3, 4)
      && ConsistsOf(Periods(start, until, Step(Yearly)), 12 * year, 12, 1)
  {
    hide DaysIn, MonthStart, Periods, ConsistsOf;
    MonthLengths(year, 11);
    WholePeriods(12 * year, 1, 12, 12 * year + 12);
    WholePeriods(12 * year, 3, 4, 12 * year + 12);
    WholePeriods(12 * year, 12, 1, 12 * year + 12);
  }

  lemma PastTheEnd(current: Date, until: Date, step: nat)
    requires current.Valid() && step >= 1 && current.Ordinal() > until.Ordinal()
    ensures !BoundaryLands(current, until, step)
  {
    forall k: nat ensures Boundary(current, step, k).Ordinal() != until.Ordinal() { BoundaryAfter(current, step, k); }
  }

  lemma CoversSplit(current: Date, until: Date, step: nat, day: int)
    requires current.Valid() && step >= 1 && current.Ordinal() < until.Ordinal()
    requires current.AddMonths(step).Valid()
    ensures Covers(Periods(current, until, step), day) <==>
      current.Ordinal() <= day <= MinInt(current.AddMonths(step).Ordinal() - 1, until.Ordinal())
      || Covers(Periods(current.AddMonths(step), until, step), day)
  {
    AddMonthsAdvances(current, step);
    var ps, rest := Periods(current, until, step), Periods(current.AddMonths(step), until, step);
    assert ps == [ps[0]] + rest;
    if Covers(ps, day) {
      var i :| 0 <= i < |ps| && ps[i].first <= day <= ps[i].last;
      assert i > 0 ==> rest[i - 1] == ps[i];
    }
    if Covers(rest, day) {
      var i :| 0 <= i < |rest| && rest[i].first <= day <= rest[i].last;
      assert ps[i + 1] == rest[i];
    }
  }

  // ---------------------------------------------------------------- lines

  datatype Planned = Planned(account: nat, analytic: Option<nat>, position: Option<nat>, amount: int)

  datatype Line = Line(planned: Planned, period: Period)

  datatype Refusal = NotDraft | NoAccounts

  predicate HasAccount(lines: seq<Planned>, account: nat)
  {
    exists i :: 0 <= i < |lines| && lines[i].account == account
  }

  /** The first line of each account, in order. */
  function FirstPerAccount(lines: seq<Planned>): seq<Planned>
  {
    if lines == [] then []
    else
      var before := FirstPerAccount(lines[..|lines| - 1]);
      var l := lines[|lines| - 1];
      if HasAccount(before, l.account) then before else before + [l]
  }

  function Block(planned: seq<Planned>, period: Period): seq<Line>
  {
    seq(|planned|, j requires 0 <= j < |planned| => Line(planned[j], period))
  }

  function LinesOf(planned: seq<Planned>, periods: seq<Period>): seq<Line>
  {
    if periods == [] then []
    else LinesOf(planned, periods[..|periods| - 1]) + Block(planned, periods[|periods| - 1])
  }

  /** Where the lines of period `i` begin when every period has `m` lines. */
  function Offset(i: nat, m: nat): nat { if i == 0 then 0 else Offset(i - 1, m) + m }

  lemma {:induction false} OffsetOrder(i: nat, k: nat, m: nat)
    requires i < k
    ensures Offset(i, m) + m <= Offset(k, m)
    decreases k
  {
    if i + 1 < k { OffsetOrder(i, k - 1, m); }
  }

  lemma {:induction false} LineCount(planned: seq<Planned>, periods: seq<Period>)
    ensures |LinesOf(planned, periods)| == Offset(|periods|, |planned|)
    decreases periods
  {
    if periods != [] { LineCount(planned, periods[..|periods| - 1]); }
  }

  /** Each period has exactly one line per account, in the order of the accounts. */
  lemma {:induction false} OneLinePerAccount(planned: seq<Planned>, periods: seq<Period>, i: nat, j: nat)
    ensures |LinesOf(planned, periods)| == Offset(|periods|, |planned|)
    ensures i < |periods| && j < |planned| ==>
      && Offset(i, |planned|) + j < |LinesOf(planned, periods)|
      && LinesOf(planned, periods)[Offset(i, |planned|) + j] == Line(planned[j], periods[i])
    decreases periods
  {
    LineCount(planned, periods);
    if i < |periods| && j < |planned| {
      var last := |periods| - 1;
      LineCount(planned, periods[..last]);
      if i < last {
        OneLinePerAccount(planned, periods[..last], i, j);
        OffsetOrder(i, last, |planned|);
      }
      hide Offset;
    }
  }

  lemma {:induction false} AccountsKept(lines: seq<Planned>, account: nat)
    ensures HasAccount(FirstPerAccount(lines), account) <==> HasAccount(lines, account)
  {
    if lines != [] {
      var init, l := lines[..|lines| - 1], lines[|lines| - 1];
      AccountsKept(init, account);
      HasAccountAppend(init, l, account);
      HasAccountAppend(FirstPerAccount(init), l, account);
      assert lines == init + [l];
    }
  }

  lemma HasAccountAppend(lines: seq<Planned>, l: Planned, account: nat)
    ensures HasAccount(lines + [l], account) <==> HasAccount(lines, account) || l.account == account
  {
    var all := lines + [l];
    assert all[|lines|] == l;
    if HasAccount(lines, account) {
      var i :| 0 <= i < |lines| && lines[i].account == account;
      assert all[i].account == account;
    }
  }

  ghost predicate DistinctAccounts(f: seq<Planned>)
  {
    forall i, j :: 0 <= i < j < |f| ==> f[i].account != f[j].account
  }

  /** No account is planned twice, and every planned line is one of the given ones. */
  lemma {:induction false} AccountsOnce(lines: seq<Planned>)
    ensures DistinctAccounts(FirstPerAccount(lines))
    ensures multiset(FirstPerAccount(lines)) <= multiset(lines)
  {
    if lines != [] {
      var init, l := lines[..|lines| - 1], lines[|lines| - 1];
      AccountsOnce(init);
      var before := FirstPerAccount(init);
      assert lines == init + [l];
      if !HasAccount(before, l.account) {
        assert FirstPerAccount(lines) == before + [l];
        assert DistinctAccounts(before + [l]);
      }
    }
  }

  method CollectPlanned(lines: seq<Planned>) returns (planned: seq<Planned>)
    ensures planned == FirstPerAccount(lines)
  {
    hide HasAccount;
    planned := [];
    for k := 0 to |lines|
      invariant planned == FirstPerAccount(lines[..k])
    {
      assert lines[..k + 1][..k] == lines[..k];
      if !HasAccount(planned, lines[k].account) {
        planned := planned + [lines[k]];
      }
    }
    assert lines[..|lines|] == lines;
  }

  method AppendPeriod(lines: seq<Line>, planned: seq<Planned>, period: Period) returns (more: seq<Line>)
    ensures more == lines + Block(planned, period)
  {
    more := lines;
    for j := 0 to |planned|
      invariant more == lines + Block(planned[..j], period)
    {
      assert Block(planned[..j + 1], period) == Block(planned[..j], period) + [Line(planned[j], period)];
      more := more + [Line(planned[j], period)];
    }
    assert planned[..|planned|] == planned;
  }

  lemma LinesOfAppend(planned: seq<Planned>, periods: seq<Period>, period: Period)
    ensures LinesOf(planned, periods + [period]) == LinesOf(planned, periods) + Block(planned, period)
  {
    assert (periods + [period])[..|periods|] == periods;
  }

  function CurrentPeriod(current: Date, until: Date, step: nat): Period
  {
    Period(current.Ordinal(), MinInt(current.AddMonths(step).Ordinal() - 1, until.Ordinal()))
  }

  lemma PeriodsUnfold(current: Date, until: Date, step: nat)
    requires current.Valid() && step >= 1 && current.Ordinal() < until.Ordinal()
    ensures current.AddMonths(step).Valid() && current.AddMonths(step).Ordinal() > current.Ordinal()
    ensures Periods(current, until, step)
         == [CurrentPeriod(current, until, step)] + Periods(current.AddMonths(step), until, step)
  {
    AddMonthsAdvances(current, step);
  }

  /** The loop over the periods. */
  method PeriodLines(planned: seq<Planned>, start: Date, until: Date, step: nat) returns (lines: seq<Line>)
    requires start.Valid() && step >= 1
    ensures lines == LinesOf(planned, Periods(start, until, step))
  {
    hide Block, LinesOf, MonthStart, DaysIn, CurrentPeriod;
    var current := start;
    lines := [];
    ghost var done: seq<Period> := [];
    assert lines == LinesOf(planned, done) by { NoLines(planned); }
    while current.Ordinal() < until.Ordinal()
      invariant current.Valid()
      invariant done + Periods(current, until, step) == Periods(start, until, step)
      invariant lines == LinesOf(planned, done)
      decreases until.Ordinal() - current.Ordinal()
    {
      PeriodsUnfold(current, until, step);
      var period := CurrentPeriod(current, until, step);
      lines := AppendPeriod(lines, planned, period);
      LinesOfAppend(planned, done, period);
      ghost var rest := Periods(current.AddMonths(step), until, step);
      assert done + ([period] + rest) == done + [period] + rest;
      done := done + [period];
      current := current.AddMonths(step);
    }
    assert done + [] == done;
  }

  lemma NoLines(planned: seq<Planned>)
    ensures LinesOf(planned, []) == []
  {}

  method GenerateLines(draft: bool, existing: seq<Planned>, start: Date, until: Date, t: PeriodType)
    returns (r: Result<seq<Line>, Refusal>)
    requires start.Valid()
    ensures !draft ==> r == Err(NotDraft)
    ensures draft && existing == [] ==> r == Err(NoAccounts)
    ensures draft && existing != [] ==> r == Ok(LinesOf(FirstPerAccount(existing), Periods(start, until, Step(t))))
  {
    hide FirstPerAccount, LinesOf, Periods;
    if !draft { return Err(NotDraft); }
    if existing == [] { return Err(NoAccounts); }
    var planned := CollectPlanned(existing);
    var lines := PeriodLines(planned, start, until, Step(t));
    r := Ok(lines);
  }
}
