/**
 The balance sheet and the profit-and-loss report. Each one groups the journal lines of its own
 account classes by class and account in a nested dictionary, then adds the account balances of
 each class with the sign of that class. The order in which a dictionary is walked is arbitrary.
 */
module FinancialReports {

  datatype ReportLine = ReportLine(account: nat, cls: char, debit: int, credit: int)

  datatype Cell = Cell(debit: int, credit: int)

  type Cells = map<nat, Cell>

  function Amount(c: Cell): int { c.debit - c.credit }

  function CellsOf(agg: map<char, Cells>, cls: char): Cells { if cls in agg then agg[cls] else map[] }

  function AddLine(agg: map<char, Cells>, l: ReportLine): map<char, Cells>
  {
    var cells := CellsOf(agg, l.cls);
    var was := if l.account in cells then cells[l.account] else Cell(0, 0);
    agg[l.cls := cells[l.account := Cell(was.debit + l.debit, was.credit + l.credit)]]
  }

  function Aggregate(lines: seq<ReportLine>): map<char, Cells>
  {
    if lines == [] then map[] else AddLine(Aggregate(lines[..|lines| - 1]), lines[|lines| - 1])
  }

  // ---------------------------------------------------------------- sums over a dictionary

  /** The sum of the account balances, in some order. */
  ghost function NetOf(cells: Cells): int
  {
    if cells == map[] then 0
    else
      var a :| a in cells;
      Amount(cells[a]) + NetOf(cells - {a})
  }

  /** Any account can be taken out first. */
  lemma {:induction false} NetOfTake(cells: Cells, a: nat)
    requires a in cells
    ensures NetOf(cells) == Amount(cells[a]) + NetOf(cells - {a})
    decreases |cells|
  {
    var b :| b in cells && NetOf(cells) == Amount(cells[b]) + NetOf(cells - {b});
    if b != a {
      SmallerWithout(cells, b);
      SmallerWithout(cells, a);
      NetOfTake(cells - {b}, a);
      NetOfTake(cells - {a}, b);
      assert cells - {b} - {a} == cells - {a} - {b};
    }
  }

  lemma SmallerWithout(cells: Cells, a: nat)
    requires a in cells
    ensures |cells - {a}| < |cells|
  {
    assert (cells - {a}).Keys == cells.Keys - {a};
  }

  lemma NetOfUpdate(cells: Cells, a: nat, c: Cell)
    ensures NetOf(cells[a := c]) == NetOf(cells) + Amount(c) - (if a in cells then Amount(cells[a]) else 0)
  {
    NetOfTake(cells[a := c], a);
    if a in cells {
      NetOfTake(cells, a);
      assert cells[a := c] - {a} == cells - {a};
    } else {
      assert cells[a := c] - {a} == cells;
    }
  }

  // ---------------------------------------------------------------- what the grouping keeps

  function ClassNet(lines: seq<ReportLine>, cls: char): int
  {
    if lines == [] then 0
    else ClassNet(lines[..|lines| - 1], cls)
         + (if lines[|lines| - 1].cls == cls then lines[|lines| - 1].debit - lines[|lines| - 1].credit else 0)
  }

  function AccountNet(lines: seq<ReportLine>, cls: char, account: nat): int
  {
    if lines == [] then 0
    else
      var l := lines[|lines| - 1];
      AccountNet(lines[..|lines| - 1], cls, account)
      + (if l.cls == cls && l.account == account then l.debit - l.credit else 0)
  }

  /** Grouping loses nothing: each account's cell holds its net, and the cells of a class add up
      to the net of its lines. */
  lemma {:induction false} AggregateKeeps(lines: seq<ReportLine>, cls: char)
    ensures var cells := CellsOf(Aggregate(lines), cls);
      && NetOf(cells) == ClassNet(lines, cls)
      && (forall a :: a in cells ==> Amount(cells[a]) == AccountNet(lines, cls, a))
      && (forall a: nat :: a !in cells ==> AccountNet(lines, cls, a) == 0)
    decreases lines
  {
    if lines != [] {
      var init, l := lines[..|lines| - 1], lines[|lines| - 1];
      AggregateKeeps(init, cls);
      var cells := CellsOf(Aggregate(init), l.cls);
      var was := if l.account in cells then cells[l.account] else Cell(0, 0);
      if l.cls == cls {
        NetOfUpdate(cells, l.account, Cell(was.debit + l.debit, was.credit + l.credit));
      }
    }
  }

  // ---------------------------------------------------------------- the reports

  method AggregateLines(lines: seq<ReportLine>) returns (agg: map<char, Cells>)
    ensures agg == Aggregate(lines)
  {
    agg := map[];
    for i := 0 to |lines|
      invariant agg == Aggregate(lines[..i])
    {
      var l := lines[i];
      assert lines[..i + 1][..i] == lines[..i];
      ghost var before := agg;
      ghost var was := if l.account in CellsOf(before, l.cls) then CellsOf(before, l.cls)[l.account] else Cell(0, 0);
      if l.cls !in agg {
        agg := agg[l.cls := map[]];
      }
      var cells: Cells := agg[l.cls];
      if l.account !in cells {
        cells := cells[l.account := Cell(0, 0)];
      }
      cells := cells[l.account := Cell(cells[l.account].debit + l.debit, cells[l.account].credit + l.credit)];
      agg := agg[l.cls := cells];
      assert cells == CellsOf(before, l.cls)[l.account := Cell(was.debit + l.debit, was.credit + l.credit)];
      assert agg == AddLine(before, l);
    }
    assert lines[..|lines|] == lines;
  }

  /** The displayed balance, sign-flipped for credit-normal classes. */
  function Saldo(c: Cell, flip: bool): int { if flip then -(c.debit - c.credit) else c.debit - c.credit }

  /** One section: the displayed balance of every account and their total. */
  method Section(cells: Cells, flip: bool) returns (balances: map<nat, int>, total: int)
    ensures balances.Keys == cells.Keys
    ensures forall a :: a in cells ==> balances[a] == Saldo(cells[a], flip)
    ensures total == (if flip then -NetOf(cells) else NetOf(cells))
  {
    hide NetOf, Saldo;
    balances := map a | a in cells :: Saldo(cells[a], flip);
    total := AddUp(cells, flip);
  }

  method AddUp(cells: Cells, flip: bool) returns (total: int)
    ensures total == (if flip then -NetOf(cells) else NetOf(cells))
  {
    hide NetOf, Saldo;
    total := 0;
    ghost var shown := 0;
    var left := cells;
    while left != map[]
      invariant shown + NetOf(left) == NetOf(cells) && total == (if flip then -shown else shown)
      decreases |left|
    {
      var a :| a in left;
      NetOfTake(left, a);
      SmallerWithout(left, a);
      SaldoSign(left[a], flip);
      total := total + Saldo(left[a], flip);
      shown := shown + Amount(left[a]);
      left := left - {a};
    }
    NetOfNothing();
  }

  lemma SaldoSign(c: Cell, flip: bool)
    ensures Saldo(c, flip) == (if flip then -Amount(c) else Amount(c))
  {}

  lemma NetOfNothing()
    ensures NetOf(map[]) == 0
  {}

  method BalanceSheet(lines: seq<ReportLine>)
    returns (assets: int, liabilities: int, equity: int, diff: int, ok: bool)
    ensures assets == ClassNet(lines, '1')
    ensures liabilities == -ClassNet(lines, '2') && equity == -ClassNet(lines, '3')
    ensures diff == EquationDiff(lines) && (ok <==> assets == liabilities + equity)
  {
    var agg := AggregateLines(lines);
    AggregateKeeps(lines, '1');
    AggregateKeeps(lines, '2');
    AggregateKeeps(lines, '3');
    var _, t1 := Section(CellsOf(agg, '1'), false);
    var _, t2 := Section(CellsOf(agg, '2'), true);
    var _, t3 := Section(CellsOf(agg, '3'), true);
    assets, liabilities, equity := t1, t2, t3;
    diff := assets - (liabilities + equity);
    ok := -1 < diff < 1;
  }

  method ProfitLoss(lines: seq<ReportLine>)
    returns (income: int, costs: int, expenses: int, gross: int, operating: int)
    ensures income == -ClassNet(lines, '4')
    ensures costs == ClassNet(lines, '6') && expenses == ClassNet(lines, '5')
    ensures gross == income - costs && operating == OperatingResult(lines)
  {
    var agg := AggregateLines(lines);
    AggregateKeeps(lines, '4');
    AggregateKeeps(lines, '5');
    AggregateKeeps(lines, '6');
    var _, t4 := Section(CellsOf(agg, '4'), true);
    var _, t6 := Section(CellsOf(agg, '6'), false);
    var _, t5 := Section(CellsOf(agg, '5'), false);
    income, costs, expenses := t4, t6, t5;
    gross := income - costs;
    operating := gross - expenses;
  }

  function EquationDiff(lines: seq<ReportLine>): int
  {
    ClassNet(lines, '1') + ClassNet(lines, '2') + ClassNet(lines, '3')
  }

  function OperatingResult(lines: seq<ReportLine>): int
  {
    -(ClassNet(lines, '4') + ClassNet(lines, '5') + ClassNet(lines, '6'))
  }

  // ---------------------------------------------------------------- the two reports together

  /** The lines of a set of classes, as the view behind each report selects them. */
  function View(lines: seq<ReportLine>, classes: set<char>): seq<ReportLine>
  {
    if lines == [] then []
    else View(lines[..|lines| - 1], classes)
         + (if lines[|lines| - 1].cls in classes then [lines[|lines| - 1]] else [])
  }

  /** All journal lines of a ledger of moves. */
  function Flatten(ledger: seq<seq<ReportLine>>): seq<ReportLine>
  {
    if ledger == [] then [] else Flatten(ledger[..|ledger| - 1]) + ledger[|ledger| - 1]
  }

  function Total(lines: seq<ReportLine>): int
  {
    if lines == [] then 0
    else Total(lines[..|lines| - 1]) + lines[|lines| - 1].debit - lines[|lines| - 1].credit
  }

  /** The view holds exactly the lines of its classes, and the journal exactly those of its moves. */
  lemma {:induction false} ViewExactly(lines: seq<ReportLine>, classes: set<char>)
    ensures forall l :: l in View(lines, classes) <==> l in lines && l.cls in classes
  {
    if lines != [] {
      var init := lines[..|lines| - 1];
      ViewExactly(init, classes);
      assert lines == init + [lines[|lines| - 1]];
    }
  }

  lemma FlattenExactly(ledger: seq<seq<ReportLine>>, move: seq<ReportLine>)
    ensures Flatten([]) == [] && Flatten(ledger + [move]) == Flatten(ledger) + move
  {
    assert (ledger + [move])[..|ledger|] == ledger;
  }

  lemma {:induction false} TotalAppend(a: seq<ReportLine>, b: seq<ReportLine>)
    ensures Total(a + b) == Total(a) + Total(b)
    decreases b
  {
    if b == [] {
      assert a + b == a;
    } else {
      assert (a + b)[..|a + b| - 1] == a + b[..|b| - 1];
      TotalAppend(a, b[..|b| - 1]);
    }
  }

  lemma {:induction false} BalancedLedger(ledger: seq<seq<ReportLine>>)
    requires forall m :: 0 <= m < |ledger| ==> Total(ledger[m]) == 0
    ensures Total(Flatten(ledger)) == 0
  {
    if ledger != [] {
      BalancedLedger(ledger[..|ledger| - 1]);
      TotalAppend(Flatten(ledger[..|ledger| - 1]), ledger[|ledger| - 1]);
    }
  }

  lemma {:induction false} ViewKeepsNet(lines: seq<ReportLine>, classes: set<char>, cls: char)
    requires cls in classes
    ensures ClassNet(View(lines, classes), cls) == ClassNet(lines, cls)
  {
    if lines != [] {
      var init, l := lines[..|lines| - 1], lines[|lines| - 1];
      ViewKeepsNet(init, classes, cls);
      var v := View(init, classes);
      if l.cls in classes {
        assert (v + [l])[..|v + [l]| - 1] == v;
      } else {
        assert v + [] == v;
      }
    }
  }

  const SheetClasses := {'1', '2', '3'}
  const ResultClasses := {'4', '5', '6'}

  predicate Covered(cls: char) { cls in SheetClasses || cls in ResultClasses }

  /** The net of the lines that neither report shows. */
  function Uncovered(lines: seq<ReportLine>): int
  {
    if lines == [] then 0
    else
      var l := lines[|lines| - 1];
      Uncovered(lines[..|lines| - 1]) + (if Covered(l.cls) then 0 else l.debit - l.credit)
  }

  lemma {:induction false} TotalByClass(lines: seq<ReportLine>)
    ensures Total(lines) == EquationDiff(lines) - OperatingResult(lines) + Uncovered(lines)
  {
    if lines != [] { TotalByClass(lines[..|lines| - 1]); }
  }

  /** For every ledger of balanced moves, with all lines selected, the balance sheet's gap is the
      profit-and-loss result minus the net of the lines outside classes 1 to 6; so the two agree
      exactly when those lines net to zero, in particular when there are none. */
  lemma CrossReport(ledger: seq<seq<ReportLine>>)
    requires forall m :: 0 <= m < |ledger| ==> Total(ledger[m]) == 0
    ensures var lines := Flatten(ledger);
      var diff, result := EquationDiff(View(lines, SheetClasses)), OperatingResult(View(lines, ResultClasses));
      && diff == result - Uncovered(lines)
      && (diff == result <==> Uncovered(lines) == 0)
      && ((forall i :: 0 <= i < |lines| ==> Covered(lines[i].cls)) ==> diff == result)
  {
    var lines := Flatten(ledger);
    BalancedLedger(ledger);
    TotalByClass(lines);
    ViewKeepsNet(lines, SheetClasses, '1');
    ViewKeepsNet(lines, SheetClasses, '2');
    ViewKeepsNet(lines, SheetClasses, '3');
    ViewKeepsNet(lines, ResultClasses, '4');
    ViewKeepsNet(lines, ResultClasses, '5');
    ViewKeepsNet(lines, ResultClasses, '6');
    if forall i :: 0 <= i < |lines| ==> Covered(lines[i].cls) { AllCovered(lines); }
  }

  lemma {:induction false} AllCovered(lines: seq<ReportLine>)
    requires forall i :: 0 <= i < |lines| ==> Covered(lines[i].cls)
    ensures Uncovered(lines) == 0
  {
    if lines != [] { AllCovered(lines[..|lines| - 1]); }
  }

  /** After a full close, when every result class nets to zero, the accounting equation holds. */
  lemma EquationAfterClose(ledger: seq<seq<ReportLine>>)
    requires forall m :: 0 <= m < |ledger| ==> Total(ledger[m]) == 0
    requires var lines := Flatten(ledger);
      && (forall i :: 0 <= i < |lines| ==> Covered(lines[i].cls))
      && ClassNet(lines, '4') == 0 && ClassNet(lines, '5') == 0 && ClassNet(lines, '6') == 0
    ensures EquationDiff(View(Flatten(ledger), SheetClasses)) == 0
  {
    var lines := Flatten(ledger);
    CrossReport(ledger);
    ViewKeepsNet(lines, ResultClasses, '4');
    ViewKeepsNet(lines, ResultClasses, '5');
    ViewKeepsNet(lines, ResultClasses, '6');
  }
}
