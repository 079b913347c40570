/** Double-entry postings: a move is a sequence of postings, a ledger a sequence of moves. */
module Ledger {
  import opened Prelude

  datatype Posting = Posting(account: Option<nat>, debit: int, credit: int)

  type Move = seq<Posting>

  /** Debits minus credits. */
  function Total(move: Move): int
  {
    if move == [] then 0 else move[0].debit - move[0].credit + Total(move[1..])
  }

  /** Debits minus credits on one account. */
  function Net(move: Move, account: Option<nat>): int
  {
    if move == [] then 0
    else (if move[0].account == account then move[0].debit - move[0].credit else 0) + Net(move[1..], account)
  }

  lemma NetCons(p: Posting, rest: Move, account: Option<nat>)
    ensures Net([p] + rest, account) == (if p.account == account then p.debit - p.credit else 0) + Net(rest, account)
    ensures Total([p] + rest) == p.debit - p.credit + Total(rest)
  {
    assert ([p] + rest)[1..] == rest;
  }

  lemma {:induction false} NetAppend(a: Move, b: Move, account: Option<nat>)
    ensures Net(a + b, account) == Net(a, account) + Net(b, account)
    ensures Total(a + b) == Total(a) + Total(b)
  {
    if a == [] {
      assert a + b == b;
    } else {
      assert (a + b)[1..] == a[1..] + b;
      NetAppend(a[1..], b, account);
    }
  }

  function Part(p: Posting, account: Option<nat>): int
  {
    if p.account == account then p.debit - p.credit else 0
  }

  lemma NetOfTwo(p: Posting, q: Posting, account: Option<nat>)
    ensures Net([p, q], account) == Part(p, account) + Part(q, account)
    ensures Total([p, q]) == p.debit - p.credit + q.debit - q.credit
  {
    assert [p, q] == [p] + [q] && [q] == [q] + [];
    NetCons(p, [q], account);
    NetCons(q, [], account);
  }

  lemma NetOfThree(p: Posting, q: Posting, r: Posting, account: Option<nat>)
    ensures Net([p, q, r], account) == Part(p, account) + Part(q, account) + Part(r, account)
    ensures Total([p, q, r]) == p.debit - p.credit + q.debit - q.credit + r.debit - r.credit
  {
    assert [p, q, r] == [p] + [q, r];
    NetCons(p, [q, r], account);
    NetOfTwo(q, r, account);
  }

  function LedgerNet(ledger: seq<Move>, account: Option<nat>): int
  {
    if ledger == [] then 0
    else LedgerNet(ledger[..|ledger| - 1], account) + Net(ledger[|ledger| - 1], account)
  }

  lemma LedgerNetAppend(ledger: seq<Move>, move: Move, account: Option<nat>)
    ensures LedgerNet(ledger + [move], account) == LedgerNet(ledger, account) + Net(move, account)
  {
    assert (ledger + [move])[..|ledger|] == ledger;
  }
}
