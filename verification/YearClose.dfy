/**
 The year-close entry: income (class 4) and expense (classes 5 and 6) accounts are closed
 against a profit-and-loss summary account, whose balance then moves to retained earnings.
 The source books the expense counterpart on the opposite side from the one its own comment
 states; both versions are modelled.
 */
module YearClose {
  import opened Prelude
  import opened Ledger
  import opened Money

  datatype Account = Account(id: nat, code: string)

  datatype Item = Item(account: nat, debit: int, credit: int, date: int, posted: bool, company: nat)

  datatype Period = Period(first: int, last: int, company: nat)

  datatype Side = AsWritten | AsCommented

  datatype Refusal = MissingFields | NothingToClose

  predicate InClass(code: string, cls: char) { code != "" && code[0] == cls }

  predicate Selected(i: Item, p: Period)
  {
    i.posted && p.first <= i.date <= p.last && i.company == p.company
  }

  /** Debits minus credits of an account in the period. */
  function Balance(items: seq<Item>, account: nat, p: Period): int
  {
    if items == [] then 0
    else (if items[0].account == account && Selected(items[0], p) then items[0].debit - items[0].credit else 0)
         + Balance(items[1..], account, p)
  }

  /** The accounts of a class with a balance, in the order of the chart. */
  function BalancesByClass(chart: seq<Account>, items: seq<Item>, cls: char, p: Period): seq<(nat, int)>
  {
    if chart == [] then []
    else
      var b := Balance(items, chart[0].id, p);
      (if InClass(chart[0].code, cls) && b != 0 then [(chart[0].id, b)] else [])
      + BalancesByClass(chart[1..], items, cls, p)
  }

  /** Reverses a balance: a credit balance is debited and a debit balance credited. */
  function Reversal(account: nat, balance: int): Posting
  {
    Posting(Some(account), if balance < 0 then -balance else 0, if balance > 0 then balance else 0)
  }

  /** Carries a balance over: a debit balance is debited and a credit balance credited. */
  function Carry(account: nat, balance: int): Posting
  {
    Posting(Some(account), if balance > 0 then balance else 0, if balance < 0 then -balance else 0)
  }

  function Closings(balances: seq<(nat, int)>): Move
  {
    if balances == [] then [] else [Reversal(balances[0].0, balances[0].1)] + Closings(balances[1..])
  }

  function TotalOf(balances: seq<(nat, int)>): int
  {
    if balances == [] then 0 else balances[0].1 + TotalOf(balances[1..])
  }

  function IncomeCounterpart(pnl: nat, income: int): Move
  {
    if income != 0 then [Carry(pnl, income)] else []
  }

  function ExpenseCounterpart(pnl: nat, expense: int, side: Side): Move
  {
    if expense == 0 then []
    else match side
      case AsWritten => [Reversal(pnl, expense)]
      case AsCommented => [Carry(pnl, expense)]
  }

  function Transfer(pnl: nat, retained: nat, net: int): Move
  {
    if net != 0 then [Reversal(pnl, net), Carry(retained, net)] else []
  }

  function Entry(income: seq<(nat, int)>, expense5: seq<(nat, int)>, expense6: seq<(nat, int)>,
                 pnl: nat, retained: nat, side: Side): Result<Move, Refusal>
  {
    var closings := Closings(income) + Closings(expense5) + Closings(expense6);
    if closings == [] then Err(NothingToClose)
    else
      var i, e := TotalOf(income), TotalOf(expense5) + TotalOf(expense6);
      Ok(closings + IncomeCounterpart(pnl, i) + ExpenseCounterpart(pnl, e, side) + Transfer(pnl, retained, i + e))
  }

  /** The wizard's entry for a chart of accounts and a journal. */
  function Close(chart: seq<Account>, items: seq<Item>, p: Period, pnl: nat, retained: nat, side: Side)
    : Result<Move, Refusal>
  {
    Entry(BalancesByClass(chart, items, '4', p), BalancesByClass(chart, items, '5', p),
          BalancesByClass(chart, items, '6', p), pnl, retained, side)
  }

  // ---------------------------------------------------------------- nets of the parts

  lemma SinglePosting(q: Posting, account: Option<nat>)
    ensures Net([q], account) == Part(q, account)
    ensures Total([q]) == q.debit - q.credit
  {
    assert [q] == [q] + [];
    NetCons(q, [], account);
  }

  function Of(balances: seq<(nat, int)>, account: Option<nat>): int
  {
    if balances == [] then 0
    else (if account == Some(balances[0].0) then balances[0].1 else 0) + Of(balances[1..], account)
  }

  lemma {:induction false} ClosingsNet(balances: seq<(nat, int)>, account: Option<nat>)
    ensures Net(Closings(balances), account) == -Of(balances, account)
    ensures Total(Closings(balances)) == -TotalOf(balances)
  {
    if balances != [] {
      ClosingsNet(balances[1..], account);
      NetCons(Reversal(balances[0].0, balances[0].1), Closings(balances[1..]), account);
    }
  }

  lemma CounterpartNet(pnl: nat, retained: nat, i: int, e: int, side: Side, account: Option<nat>)
    ensures Net(IncomeCounterpart(pnl, i), account) == (if account == Some(pnl) then i else 0)
    ensures Total(IncomeCounterpart(pnl, i)) == i
    ensures var signed := if side == AsCommented then e else -e;
      && Net(ExpenseCounterpart(pnl, e, side), account) == (if account == Some(pnl) then signed else 0)
      && Total(ExpenseCounterpart(pnl, e, side)) == signed
    ensures Net(Transfer(pnl, retained, i + e), account)
         == (if account == Some(pnl) then -(i + e) else 0) + (if account == Some(retained) then i + e else 0)
    ensures Total(Transfer(pnl, retained, i + e)) == 0
  {
    SinglePosting(Carry(pnl, i), account);
    SinglePosting(Carry(pnl, e), account);
    SinglePosting(Reversal(pnl, e), account);
    NetOfTwo(Reversal(pnl, i + e), Carry(retained, i + e), account);
  }

  /** The net effect of the entry on any account, and its imbalance. */
  lemma EntryNet(income: seq<(nat, int)>, expense5: seq<(nat, int)>, expense6: seq<(nat, int)>,
                 pnl: nat, retained: nat, side: Side, account: Option<nat>)
    requires Entry(income, expense5, expense6, pnl, retained, side).Ok?
    ensures var m := Entry(income, expense5, expense6, pnl, retained, side).value;
      var i, e := TotalOf(income), TotalOf(expense5) + TotalOf(expense6);
      && Net(m, account) == -Of(income, account) - Of(expense5, account) - Of(expense6, account)
           + (if account == Some(pnl) && side == AsWritten then -2 * e else 0)
           + (if account == Some(retained) then i + e else 0)
      && Total(m) == (if side == AsWritten then -2 * e else 0)
  {
    hide IncomeCounterpart, ExpenseCounterpart, Transfer, Closings, Net, Total, Of, TotalOf;
    var i, e := TotalOf(income), TotalOf(expense5) + TotalOf(expense6);
    var c4, c5, c6 := Closings(income), Closings(expense5), Closings(expense6);
    var ic, ec, tr := IncomeCounterpart(pnl, i), ExpenseCounterpart(pnl, e, side), Transfer(pnl, retained, i + e);
    ClosingsNet(income, account);
    ClosingsNet(expense5, account);
    ClosingsNet(expense6, account);
    CounterpartNet(pnl, retained, i, e, side, account);
    NetOfThreeMoves(c4, c5, c6, account);
    NetAppend(c4 + c5 + c6, ic, account);
    NetAppend(c4 + c5 + c6 + ic, ec, account);
    NetAppend(c4 + c5 + c6 + ic + ec, tr, account);
  }

  lemma NetOfThreeMoves(a: Move, b: Move, c: Move, account: Option<nat>)
    ensures Net(a + b + c, account) == Net(a, account) + Net(b, account) + Net(c, account)
    ensures Total(a + b + c) == Total(a) + Total(b) + Total(c)
  {
    NetAppend(a, b, account);
    NetAppend(a + b, c, account);
  }

  /** As written, the entry's debits minus credits are minus twice the net expense balance, so
      it balances exactly when the net class 5 and 6 balance is zero. */
  lemma AsWrittenImbalance(income: seq<(nat, int)>, expense5: seq<(nat, int)>, expense6: seq<(nat, int)>,
                           pnl: nat, retained: nat)
    requires Entry(income, expense5, expense6, pnl, retained, AsWritten).Ok?
    ensures var m := Entry(income, expense5, expense6, pnl, retained, AsWritten).value;
      var e := TotalOf(expense5) + TotalOf(expense6);
      && Total(m) == -2 * e
      && (Total(m) == 0 <==> e == 0)
  {
    EntryNet(income, expense5, expense6, pnl, retained, AsWritten, None);
  }

  // ---------------------------------------------------------------- the journal after the close

  function ItemsOf(m: Move, date: int, company: nat): seq<Item>
  {
    if m == [] then []
    else (if m[0].account.Some? then [Item(m[0].account.value, m[0].debit, m[0].credit, date, true, company)] else [])
         + ItemsOf(m[1..], date, company)
  }

  lemma {:induction false} BalanceAppend(a: seq<Item>, b: seq<Item>, account: nat, p: Period)
    ensures Balance(a + b, account, p) == Balance(a, account, p) + Balance(b, account, p)
  {
    if a == [] {
      assert a + b == b;
    } else {
      assert (a + b)[1..] == a[1..] + b;
      BalanceAppend(a[1..], b, account, p);
    }
  }

  lemma {:induction false} BalanceOfEntry(m: Move, date: int, p: Period, account: nat)
    requires p.first <= date <= p.last
    ensures Balance(ItemsOf(m, date, p.company), account, p) == Net(m, Some(account))
  {
    if m != [] {
      BalanceOfEntry(m[1..], date, p, account);
      var head: seq<Item> :=
        if m[0].account.Some? then [Item(m[0].account.value, m[0].debit, m[0].credit, date, true, p.company)] else [];
      BalanceAppend(head, ItemsOf(m[1..], date, p.company), account, p);
      assert head != [] ==> head[1..] == [];
    }
  }

  /** What each item adds to the balance of an account: posted, of the company and dated within the
      period. */
  function Amounts(items: seq<Item>, account: nat, p: Period): seq<int>
  {
    seq(|items|, k requires 0 <= k < |items| =>
      if items[k].account == account && items[k].posted && items[k].company == p.company
         && p.first <= items[k].date && items[k].date <= p.last
      then items[k].debit - items[k].credit else 0)
  }

  /** The balance of an account is the sum of what its items add. */
  lemma {:induction false} BalanceIsSum(items: seq<Item>, account: nat, p: Period)
    ensures Balance(items, account, p) == Sum(Amounts(items, account, p))
  {
    if items != [] {
      BalanceIsSum(items[1..], account, p);
      assert Amounts(items, account, p)[1..] == Amounts(items[1..], account, p);
    }
  }

  ghost predicate DistinctIds(chart: seq<Account>)
  {
    forall i, j :: 0 <= i < j < |chart| ==> chart[i].id != chart[j].id
  }

  ghost predicate Listed(chart: seq<Account>, account: nat, cls: char)
  {
    exists i :: 0 <= i < |chart| && chart[i].id == account && InClass(chart[i].code, cls)
  }

  /** Each account of the class is listed once, with its whole balance. */
  lemma {:induction false} ListedBalance(chart: seq<Account>, items: seq<Item>, cls: char, p: Period, account: nat)
    requires DistinctIds(chart)
    ensures Of(BalancesByClass(chart, items, cls, p), Some(account))
         == (if Listed(chart, account, cls) then Balance(items, account, p) else 0)
  {
    if chart != [] {
      ListedBalance(chart[1..], items, cls, p, account);
      assert Listed(chart, account, cls) <==>
             (chart[0].id == account && InClass(chart[0].code, cls)) || Listed(chart[1..], account, cls) by {
        if Listed(chart[1..], account, cls) {
          var i :| 0 <= i < |chart| - 1 && chart[1..][i].id == account && InClass(chart[1..][i].code, cls);
          assert chart[i + 1].id == account;
        }
        if Listed(chart, account, cls) {
          var i :| 0 <= i < |chart| && chart[i].id == account && InClass(chart[i].code, cls);
          assert i > 0 ==> chart[1..][i - 1] == chart[i];
        }
      }
      if chart[0].id == account {
        assert !Listed(chart[1..], account, cls);
      }
      var b := Balance(items, chart[0].id, p);
      var head: seq<(nat, int)> := if InClass(chart[0].code, cls) && b != 0 then [(chart[0].id, b)] else [];
      OfAppend(head, BalancesByClass(chart[1..], items, cls, p), Some(account));
      assert head != [] ==> head[1..] == [];
    }
  }

  lemma {:induction false} OfAppend(a: seq<(nat, int)>, b: seq<(nat, int)>, account: Option<nat>)
    ensures Of(a + b, account) == Of(a, account) + Of(b, account)
  {
    if a == [] {
      assert a + b == b;
    } else {
      assert (a + b)[1..] == a[1..] + b;
      OfAppend(a[1..], b, account);
    }
  }

  /** Profit or loss: the net balance of the result accounts. */
  function NetResult(chart: seq<Account>, items: seq<Item>, p: Period): int
  {
    TotalOf(BalancesByClass(chart, items, '4', p)) + TotalOf(BalancesByClass(chart, items, '5', p))
    + TotalOf(BalancesByClass(chart, items, '6', p))
  }

  lemma OneClass(chart: seq<Account>, account: nat, a: char, b: char)
    requires DistinctIds(chart) && Listed(chart, account, a) && Listed(chart, account, b)
    ensures a == b
  {
    var i :| 0 <= i < |chart| && chart[i].id == account && InClass(chart[i].code, a);
    var j :| 0 <= j < |chart| && chart[j].id == account && InClass(chart[j].code, b);
    assert i == j;
  }

  ghost predicate ResultAccount(chart: seq<Account>, account: nat)
  {
    Listed(chart, account, '4') || Listed(chart, account, '5') || Listed(chart, account, '6')
  }

  /** The balance of any account after the commented entry is posted inside the fiscal year. */
  lemma BalanceAfterClose(chart: seq<Account>, items: seq<Item>, p: Period, pnl: nat, retained: nat,
                          date: int, account: nat)
    requires DistinctIds(chart) && p.first <= date <= p.last
    requires Close(chart, items, p, pnl, retained, AsCommented).Ok?
    ensures var m := Close(chart, items, p, pnl, retained, AsCommented).value;
      Balance(items + ItemsOf(m, date, p.company), account, p)
        == (if ResultAccount(chart, account) then 0 else Balance(items, account, p))
           + (if account == retained then NetResult(chart, items, p) else 0)
  {
    hide BalancesByClass, Listed, Entry, ItemsOf;
    var m := Close(chart, items, p, pnl, retained, AsCommented).value;
    EntryNet(BalancesByClass(chart, items, '4', p), BalancesByClass(chart, items, '5', p),
             BalancesByClass(chart, items, '6', p), pnl, retained, AsCommented, Some(account));
    BalanceAppend(items, ItemsOf(m, date, p.company), account, p);
    BalanceOfEntry(m, date, p, account);
    ListedBalance(chart, items, '4', p, account);
    ListedBalance(chart, items, '5', p, account);
    ListedBalance(chart, items, '6', p, account);
    if Listed(chart, account, '4') && Listed(chart, account, '5') { OneClass(chart, account, '4', '5'); }
    if Listed(chart, account, '4') && Listed(chart, account, '6') { OneClass(chart, account, '4', '6'); }
    if Listed(chart, account, '5') && Listed(chart, account, '6') { OneClass(chart, account, '5', '6'); }
  }

  lemma {:induction false} NoBalances(chart: seq<Account>, items: seq<Item>, cls: char, p: Period)
    requires forall i :: 0 <= i < |chart| && InClass(chart[i].code, cls) ==> Balance(items, chart[i].id, p) == 0
    ensures BalancesByClass(chart, items, cls, p) == []
  {
    if chart != [] {
      assert forall i :: 0 <= i < |chart| - 1 ==> chart[1..][i] == chart[i + 1];
      NoBalances(chart[1..], items, cls, p);
    }
  }

  /** With the expense counterpart on the side the comment states: the entry balances, every
      result account ends the year at zero, the summary account's own lines cancel out, retained
      earnings moves by the net result, and a second close finds nothing to do. */
  lemma CommentedCloseIsComplete(chart: seq<Account>, items: seq<Item>, p: Period, pnl: nat, retained: nat, date: int)
    requires DistinctIds(chart) && p.first <= date <= p.last
    requires !ResultAccount(chart, retained) && retained != pnl
    requires Close(chart, items, p, pnl, retained, AsCommented).Ok?
    ensures var m := Close(chart, items, p, pnl, retained, AsCommented).value;
      var after := items + ItemsOf(m, date, p.company);
      && Total(m) == 0
      && (forall i :: 0 <= i < |chart| && ResultAccount(chart, chart[i].id) ==> Balance(after, chart[i].id, p) == 0)
      && (!ResultAccount(chart, pnl) ==> Net(m, Some(pnl)) == 0)
      && Balance(after, retained, p) == Balance(items, retained, p) + NetResult(chart, items, p)
      && Close(chart, after, p, pnl, retained, AsCommented) == Err(NothingToClose)
  {
    hide BalancesByClass, ItemsOf, Balance;
    var m := Close(chart, items, p, pnl, retained, AsCommented).value;
    var after := items + ItemsOf(m, date, p.company);
    var b4, b5, b6 := BalancesByClass(chart, items, '4', p), BalancesByClass(chart, items, '5', p),
                      BalancesByClass(chart, items, '6', p);
    EntryNet(b4, b5, b6, pnl, retained, AsCommented, Some(pnl));
    ListedBalance(chart, items, '4', p, pnl);
    ListedBalance(chart, items, '5', p, pnl);
    ListedBalance(chart, items, '6', p, pnl);
    forall i | 0 <= i < |chart| && ResultAccount(chart, chart[i].id)
      ensures Balance(after, chart[i].id, p) == 0
    {
      BalanceAfterClose(chart, items, p, pnl, retained, date, chart[i].id);
    }
    BalanceAfterClose(chart, items, p, pnl, retained, date, retained);
    forall i, cls | 0 <= i < |chart| && cls in ['4', '5', '6'] && InClass(chart[i].code, cls)
      ensures Balance(after, chart[i].id, p) == 0
    {
      assert Listed(chart, chart[i].id, cls);
    }
    NoBalances(chart, after, '4', p);
    NoBalances(chart, after, '5', p);
    NoBalances(chart, after, '6', p);
  }

  /** One expense of 100 in class 5: as written, both counterparts are credits. */
  lemma AsWrittenDoesNotBalance()
    ensures Entry([], [(1, 100)], [], 2, 3, AsWritten).Ok?
    ensures Total(Entry([], [(1, 100)], [], 2, 3, AsWritten).value) == -200
  {
    assert Closings([(1, 100)]) != [];
    assert TotalOf([(1, 100)]) == 100;
    AsWrittenImbalance([], [(1, 100)], [], 2, 3);
  }

  // ---------------------------------------------------------------- the wizard

  lemma ClosingsStep(balances: seq<(nat, int)>, i: nat)
    requires i < |balances|
    ensures Closings(balances[i..]) == [Reversal(balances[i].0, balances[i].1)] + Closings(balances[i + 1..])
    ensures TotalOf(balances[i..]) == balances[i].1 + TotalOf(balances[i + 1..])
  {
    assert balances[i..][0] == balances[i] && balances[i..][1..] == balances[i + 1..];
  }

  lemma NothingLeft(balances: seq<(nat, int)>)
    ensures Closings(balances[|balances|..]) == [] && TotalOf(balances[|balances|..]) == 0
  {}

  method CloseAccounts(balances: seq<(nat, int)>) returns (lines: Move, total: int)
    ensures lines == Closings(balances) && total == TotalOf(balances)
  {
    hide Closings, TotalOf;
    lines, total := [], 0;
    assert balances[0..] == balances;
    for i := 0 to |balances|
      invariant lines + Closings(balances[i..]) == Closings(balances)
      invariant total + TotalOf(balances[i..]) == TotalOf(balances)
    {
      var (account, balance) := balances[i];
      var debit := if balance < 0 then Abs(balance) else 0;
      var credit := if balance > 0 then Abs(balance) else 0;
      var line := Posting(Some(account), debit, credit);
      ClosingsStep(balances, i);
      ghost var rest := Closings(balances[i + 1..]);
      assert lines + ([line] + rest) == lines + [line] + rest;
      lines := lines + [line];
      total := total + balance;
    }
    NothingLeft(balances);
  }

  /** The entry as the source builds it, for the side it uses. */
  method GenerateYearClose(chart: seq<Account>, items: seq<Item>, p: Period, journal: Option<nat>, pnl: Option<nat>,
                           retained: nat, side: Side) returns (r: Result<Move, Refusal>)
    ensures r == if journal.None? || pnl.None? then Err(MissingFields)
                 else Close(chart, items, p, pnl.value, retained, side)
  {
    hide BalancesByClass, Closings;
    if journal.None? || pnl.None? { return Err(MissingFields); }
    var income, incomeTotal := CloseAccounts(BalancesByClass(chart, items, '4', p));
    var expense5, total5 := CloseAccounts(BalancesByClass(chart, items, '5', p));
    var expense6, total6 := CloseAccounts(BalancesByClass(chart, items, '6', p));
    var expenseTotal := total5 + total6;
    var lines := income + expense5 + expense6;
    if lines == [] { return Err(NothingToClose); }
    var closings := lines;
    if incomeTotal != 0 {
      lines := lines + [Carry(pnl.value, incomeTotal)];
    }
    assert lines == closings + IncomeCounterpart(pnl.value, incomeTotal);
    ghost var withIncome := lines;
    if expenseTotal != 0 {
      var summary := if side == AsWritten then Reversal(pnl.value, expenseTotal) else Carry(pnl.value, expenseTotal);
      lines := lines + [summary];
    }
    assert lines == withIncome + ExpenseCounterpart(pnl.value, expenseTotal, side);
    ghost var withExpense := lines;
    var net := incomeTotal + expenseTotal;
    if net != 0 {
      lines := lines + [Reversal(pnl.value, net)];
      lines := lines + [Carry(retained, net)];
    }
    assert lines == withExpense + Transfer(pnl.value, retained, net);
    r := Ok(lines);
  }
}
