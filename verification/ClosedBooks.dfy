/**
 The year close seen through the two reports: books that were closed and balanced before a year
 are so again after the year is closed with the entry its comments describe, and the balance
 sheet's equation holds.
 */
module ClosedBooks {
  import Y = YearClose
  import R = FinancialReports
  import L = Ledger

  /** The class of an account is the first character of its code. */
  function ClassOf(chart: seq<Y.Account>, account: nat): char
  {
    if chart == [] then ' '
    else if chart[0].id == account then (if chart[0].code == "" then ' ' else chart[0].code[0])
    else ClassOf(chart[1..], account)
  }

  function LineOf(chart: seq<Y.Account>, i: Y.Item): R.ReportLine
  {
    R.ReportLine(i.account, ClassOf(chart, i.account), i.debit, i.credit)
  }

  function LinesOf(chart: seq<Y.Account>, items: seq<Y.Item>): seq<R.ReportLine>
  {
    seq(|items|, k requires 0 <= k < |items| => LineOf(chart, items[k]))
  }

  predicate AllSelected(items: seq<Y.Item>, p: Y.Period)
  {
    forall k :: 0 <= k < |items| ==> Y.Selected(items[k], p)
  }

  // ---------------------------------------------------------------- class totals

  /** The balances of the accounts of a class, added over the chart. */
  function ClassBalance(chart: seq<Y.Account>, items: seq<Y.Item>, cls: char, p: Y.Period): int
  {
    if chart == [] then 0
    else (if Y.InClass(chart[0].code, cls) then Y.Balance(items, chart[0].id, p) else 0)
         + ClassBalance(chart[1..], items, cls, p)
  }

  lemma {:induction false} ItemElsewhere(chart: seq<Y.Account>, items: seq<Y.Item>, i: Y.Item, cls: char, p: Y.Period)
    requires forall k :: 0 <= k < |chart| ==> chart[k].id != i.account
    ensures ClassBalance(chart, items + [i], cls, p) == ClassBalance(chart, items, cls, p)
    ensures ClassOf(chart, i.account) == ' '
  {
    if chart != [] {
      ItemElsewhere(chart[1..], items, i, cls, p);
      Y.BalanceAppend(items, [i], chart[0].id, p);
      assert [i][1..] == [];
    }
  }

  lemma {:induction false} ItemCounts(chart: seq<Y.Account>, items: seq<Y.Item>, i: Y.Item, cls: char, p: Y.Period)
    requires Y.DistinctIds(chart) && Y.Selected(i, p) && cls != ' '
    ensures ClassBalance(chart, items + [i], cls, p)
         == ClassBalance(chart, items, cls, p) + (if ClassOf(chart, i.account) == cls then i.debit - i.credit else 0)
  {
    if chart != [] {
      Y.BalanceAppend(items, [i], chart[0].id, p);
      assert [i][1..] == [] && Y.Balance([i][1..], chart[0].id, p) == 0;
      if chart[0].id == i.account {
        ItemElsewhere(chart[1..], items, i, cls, p);
      } else {
        ItemCounts(chart[1..], items, i, cls, p);
      }
    }
  }

  lemma {:induction false} NoItems(chart: seq<Y.Account>, cls: char, p: Y.Period)
    ensures ClassBalance(chart, [], cls, p) == 0
  {
    if chart != [] { NoItems(chart[1..], cls, p); }
  }

  /** A report's class total is the sum of the account balances that the close works with. */
  lemma {:induction false} ClassNetIsBalance(chart: seq<Y.Account>, items: seq<Y.Item>, cls: char, p: Y.Period)
    requires Y.DistinctIds(chart) && AllSelected(items, p) && cls != ' '
    ensures R.ClassNet(LinesOf(chart, items), cls) == ClassBalance(chart, items, cls, p)
  {
    if items == [] {
      NoItems(chart, cls, p);
    } else {
      var last := |items| - 1;
      var init := items[..last];
      hide ClassBalance, ClassOf;
      ClassNetIsBalance(chart, init, cls, p);
      ItemCounts(chart, init, items[last], cls, p);
      assert items == init + [items[last]];
      assert LinesOf(chart, items)[..last] == LinesOf(chart, init);
    }
  }

  lemma {:induction false} ZeroClass(chart: seq<Y.Account>, items: seq<Y.Item>, cls: char, p: Y.Period)
    requires forall k :: 0 <= k < |chart| && Y.InClass(chart[k].code, cls) ==> Y.Balance(items, chart[k].id, p) == 0
    ensures ClassBalance(chart, items, cls, p) == 0
  {
    if chart != [] {
      assert forall k :: 0 <= k < |chart| - 1 ==> chart[1..][k] == chart[k + 1];
      ZeroClass(chart[1..], items, cls, p);
    }
  }

  // ---------------------------------------------------------------- the entry stays within the chart

  ghost predicate InChart(chart: seq<Y.Account>, account: nat)
  {
    exists k :: 0 <= k < |chart| && chart[k].id == account
  }

  ghost predicate Within(chart: seq<Y.Account>, m: L.Move)
  {
    forall k :: 0 <= k < |m| ==> m[k].account.Some? && InChart(chart, m[k].account.value)
  }

  lemma {:induction false} BalancesInChart(
      chart: seq<Y.Account>, all: seq<Y.Account>, items: seq<Y.Item>, cls: char, p: Y.Period)
    requires forall k :: 0 <= k < |chart| ==> InChart(all, chart[k].id)
    ensures Within(all, Y.Closings(Y.BalancesByClass(chart, items, cls, p)))
  {
    if chart != [] {
      hide InChart;
      BalancesInChart(chart[1..], all, items, cls, p);
      var rest := Y.BalancesByClass(chart[1..], items, cls, p);
      var b := Y.Balance(items, chart[0].id, p);
      if Y.InClass(chart[0].code, cls) && b != 0 {
        assert Y.BalancesByClass(chart, items, cls, p) == [(chart[0].id, b)] + rest;
        assert Y.BalancesByClass(chart, items, cls, p)[1..] == rest;
      } else {
        assert Y.BalancesByClass(chart, items, cls, p) == rest;
      }
    }
  }

  lemma WithinAppend(chart: seq<Y.Account>, a: L.Move, b: L.Move)
    requires Within(chart, a) && Within(chart, b)
    ensures Within(chart, a + b)
  {
    hide InChart;
  }

  lemma CounterpartsInChart(chart: seq<Y.Account>, pnl: nat, retained: nat, i: int, e: int, side: Y.Side)
    requires InChart(chart, pnl) && InChart(chart, retained)
    ensures Within(chart, Y.IncomeCounterpart(pnl, i)) && Within(chart, Y.ExpenseCounterpart(pnl, e, side))
    ensures Within(chart, Y.Transfer(pnl, retained, i + e))
  {
    hide InChart;
  }

  lemma EntryInChart(chart: seq<Y.Account>, b4: seq<(nat, int)>, b5: seq<(nat, int)>, b6: seq<(nat, int)>,
                     pnl: nat, retained: nat, side: Y.Side)
    requires InChart(chart, pnl) && InChart(chart, retained)
    requires Within(chart, Y.Closings(b4)) && Within(chart, Y.Closings(b5)) && Within(chart, Y.Closings(b6))
    requires Y.Entry(b4, b5, b6, pnl, retained, side).Ok?
    ensures Within(chart, Y.Entry(b4, b5, b6, pnl, retained, side).value)
  {
    hide Within, InChart, Y.Closings, Y.TotalOf, Y.IncomeCounterpart, Y.ExpenseCounterpart, Y.Transfer;
    var i, e := Y.TotalOf(b4), Y.TotalOf(b5) + Y.TotalOf(b6);
    var ic, ec, tr := Y.IncomeCounterpart(pnl, i), Y.ExpenseCounterpart(pnl, e, side), Y.Transfer(pnl, retained, i + e);
    CounterpartsInChart(chart, pnl, retained, i, e, side);
    var closings := Y.Closings(b4) + Y.Closings(b5) + Y.Closings(b6);
    WithinAppend(chart, Y.Closings(b4), Y.Closings(b5));
    WithinAppend(chart, Y.Closings(b4) + Y.Closings(b5), Y.Closings(b6));
    WithinAppend(chart, closings, ic);
    WithinAppend(chart, closings + ic, ec);
    WithinAppend(chart, closings + ic + ec, tr);
  }

  lemma CloseInChart(chart: seq<Y.Account>, items: seq<Y.Item>, p: Y.Period, pnl: nat, retained: nat, side: Y.Side)
    requires InChart(chart, pnl) && InChart(chart, retained)
    requires Y.Close(chart, items, p, pnl, retained, side).Ok?
    ensures Within(chart, Y.Close(chart, items, p, pnl, retained, side).value)
  {
    assert forall k :: 0 <= k < |chart| ==> InChart(chart, chart[k].id);
    hide Within, InChart, Y.BalancesByClass, Y.Closings, Y.Entry;
    BalancesInChart(chart, chart, items, '4', p);
    BalancesInChart(chart, chart, items, '5', p);
    BalancesInChart(chart, chart, items, '6', p);
    EntryInChart(chart, Y.BalancesByClass(chart, items, '4', p), Y.BalancesByClass(chart, items, '5', p),
                 Y.BalancesByClass(chart, items, '6', p), pnl, retained, side);
  }

  // ---------------------------------------------------------------- the books over the years

  /** Balanced books on classes 1 to 6 with every result class at zero. */
  ghost predicate Closed(lines: seq<R.ReportLine>)
  {
    && R.Total(lines) == 0
    && (forall k :: 0 <= k < |lines| ==> R.Covered(lines[k].cls))
    && R.ClassNet(lines, '4') == 0 && R.ClassNet(lines, '5') == 0 && R.ClassNet(lines, '6') == 0
  }

  lemma {:induction false} ClassNetAppend(a: seq<R.ReportLine>, b: seq<R.ReportLine>, cls: char)
    ensures R.ClassNet(a + b, cls) == R.ClassNet(a, cls) + R.ClassNet(b, cls)
    decreases b
  {
    if b == [] {
      assert a + b == a;
    } else {
      assert (a + b)[..|a + b| - 1] == a + b[..|b| - 1];
      ClassNetAppend(a, b[..|b| - 1], cls);
    }
  }

  lemma TotalOfBoth(chart: seq<Y.Account>, a: seq<Y.Item>, b: seq<Y.Item>)
    ensures R.Total(LinesOf(chart, a + b)) == R.Total(LinesOf(chart, a)) + R.Total(LinesOf(chart, b))
  {
    assert LinesOf(chart, a + b) == LinesOf(chart, a) + LinesOf(chart, b);
    R.TotalAppend(LinesOf(chart, a), LinesOf(chart, b));
  }

  lemma {:induction false} EntryLines(chart: seq<Y.Account>, m: L.Move, date: int, p: Y.Period)
    requires Within(chart, m) && p.first <= date <= p.last
    ensures var items := Y.ItemsOf(m, date, p.company);
      && AllSelected(items, p)
      && (forall k :: 0 <= k < |items| ==> InChart(chart, items[k].account))
      && R.Total(LinesOf(chart, items)) == L.Total(m)
  {
    if m != [] {
      hide InChart, ClassOf;
      EntryLines(chart, m[1..], date, p);
      var head := Y.Item(m[0].account.value, m[0].debit, m[0].credit, date, true, p.company);
      var rest := Y.ItemsOf(m[1..], date, p.company);
      assert Y.ItemsOf(m, date, p.company) == [head] + rest;
      TotalOfBoth(chart, [head], rest);
      assert LinesOf(chart, [head])[..0] == [];
    }
  }

  /** A chart of distinct accounts, all of classes 1 to 6. */
  ghost predicate ChartOk(chart: seq<Y.Account>)
  {
    Y.DistinctIds(chart) && forall a :: InChart(chart, a) ==> R.Covered(ClassOf(chart, a))
  }

  /** The year's items after the close, on its own. */
  lemma YearClosed(chart: seq<Y.Account>, items: seq<Y.Item>, p: Y.Period, pnl: nat, retained: nat, date: int)
    requires ChartOk(chart) && p.first <= date <= p.last
    requires InChart(chart, pnl) && InChart(chart, retained)
    requires !Y.ResultAccount(chart, retained) && retained != pnl
    requires AllSelected(items, p) && R.Total(LinesOf(chart, items)) == 0
    requires forall k :: 0 <= k < |items| ==> InChart(chart, items[k].account)
    requires Y.Close(chart, items, p, pnl, retained, Y.AsCommented).Ok?
    ensures var m := Y.Close(chart, items, p, pnl, retained, Y.AsCommented).value;
      Closed(LinesOf(chart, items + Y.ItemsOf(m, date, p.company)))
  {
    hide Y.Close, Y.ItemsOf, Y.Balance, InChart, ClassOf, R.Covered, R.Total, R.ClassNet, ClassBalance;
    var m := Y.Close(chart, items, p, pnl, retained, Y.AsCommented).value;
    var entry := Y.ItemsOf(m, date, p.company);
    var after := items + entry;
    Y.CommentedCloseIsComplete(chart, items, p, pnl, retained, date);
    CloseInChart(chart, items, p, pnl, retained, Y.AsCommented);
    EntryLines(chart, m, date, p);
    TotalOfBoth(chart, items, entry);
    ClosedClass(chart, after, '4', p);
    ClosedClass(chart, after, '5', p);
    ClosedClass(chart, after, '6', p);
  }

  /** A class whose accounts are all at zero shows zero in the report. */
  lemma ClosedClass(chart: seq<Y.Account>, items: seq<Y.Item>, cls: char, p: Y.Period)
    requires Y.DistinctIds(chart) && AllSelected(items, p) && cls in {'4', '5', '6'}
    requires forall i :: 0 <= i < |chart| && Y.ResultAccount(chart, chart[i].id) ==>
      Y.Balance(items, chart[i].id, p) == 0
    ensures R.ClassNet(LinesOf(chart, items), cls) == 0
  {
    forall k | 0 <= k < |chart| && Y.InClass(chart[k].code, cls) ensures Y.Balance(items, chart[k].id, p) == 0 {
      assert Y.Listed(chart, chart[k].id, cls);
    }
    ZeroClass(chart, items, cls, p);
    ClassNetIsBalance(chart, items, cls, p);
  }

  /** Closing a year on top of closed books gives closed books again, and the balance sheet's
      equation then holds. */
  lemma CloseKeepsBooksClosed(before: seq<R.ReportLine>, chart: seq<Y.Account>, items: seq<Y.Item>, p: Y.Period,
                              pnl: nat, retained: nat, date: int)
    requires Closed(before)
    requires ChartOk(chart) && p.first <= date <= p.last
    requires InChart(chart, pnl) && InChart(chart, retained)
    requires !Y.ResultAccount(chart, retained) && retained != pnl
    requires AllSelected(items, p) && R.Total(LinesOf(chart, items)) == 0
    requires forall k :: 0 <= k < |items| ==> InChart(chart, items[k].account)
    requires Y.Close(chart, items, p, pnl, retained, Y.AsCommented).Ok?
    ensures var m := Y.Close(chart, items, p, pnl, retained, Y.AsCommented).value;
      var after := before + LinesOf(chart, items + Y.ItemsOf(m, date, p.company));
      && Closed(after)
      && R.EquationDiff(R.View(after, R.SheetClasses)) == 0
  {
    hide Y.Close, Y.ItemsOf, InChart, R.Covered, R.Total, R.ClassNet, LinesOf, ChartOk;
    var m := Y.Close(chart, items, p, pnl, retained, Y.AsCommented).value;
    var year := LinesOf(chart, items + Y.ItemsOf(m, date, p.company));
    YearClosed(chart, items, p, pnl, retained, date);
    R.TotalAppend(before, year);
    ClassNetAppend(before, year, '4');
    ClassNetAppend(before, year, '5');
    ClassNetAppend(before, year, '6');
    ClosedEquation(before + year);
  }

  lemma ClosedEquation(lines: seq<R.ReportLine>)
    requires Closed(lines)
    ensures R.EquationDiff(R.View(lines, R.SheetClasses)) == 0
  {
    R.TotalByClass(lines);
    R.AllCovered(lines);
    R.ViewKeepsNet(lines, R.SheetClasses, '1');
    R.ViewKeepsNet(lines, R.SheetClasses, '2');
    R.ViewKeepsNet(lines, R.SheetClasses, '3');
  }
}
