/**
 The life of a fixed asset: draft, running, closed, disposed. Confirming generates the
 schedule, posting books one balanced entry per due line, disposal writes the asset off.
 A failed action raises and its transaction leaves no trace, so it does not change the state.
 */
module FixedAsset {
  import opened Prelude
  import opened Money
  import opened Ledger
  import opened DepreciationSchedule

  datatype Status = Draft | Running | Closed | Disposed

  datatype Setup = Setup(
    purchase: int, salvage: int, kind: Method, life: int, firstMonth: int,
    journal: Option<nat>, assetAccount: Option<nat>,
    depreciationAccount: Option<nat>, expenseAccount: Option<nat>)

  datatype AssetLine = AssetLine(line: Line, move: Option<nat>)

  /** `ledger` holds the moves created for this asset; a move's id is its position. */
  datatype Asset = Asset(
    setup: Setup, status: Status, lines: seq<AssetLine>, disposal: Option<nat>, ledger: seq<Move>)

  datatype Action = Confirm | Post(today: int) | Close | SetToDraft | Dispose

  datatype Refusal = NotDraft | NoJournal | NoAccounts | NotRunning | HasPostedEntries | NotDisposable

  /** The record constraints on value, salvage and life. */
  predicate Constraints(s: Setup)
  {
    s.purchase > 0 && 0 <= s.salvage < s.purchase && s.life >= 1
  }

  function Depreciable(s: Setup): int { s.purchase - s.salvage }

  function Accumulated(lines: seq<AssetLine>): int
  {
    if lines == [] then 0
    else (if lines[0].move.Some? then lines[0].line.amount else 0) + Accumulated(lines[1..])
  }

  function PostedCount(lines: seq<AssetLine>): nat
  {
    if lines == [] then 0 else (if lines[0].move.Some? then 1 else 0) + PostedCount(lines[1..])
  }

  function BookValue(a: Asset): int { a.setup.purchase - Accumulated(a.lines) }

  function PostedLines(lines: seq<AssetLine>): seq<AssetLine>
  {
    if lines == [] then []
    else (if lines[0].move.Some? then [lines[0]] else []) + PostedLines(lines[1..])
  }

  function DepreciationMove(s: Setup, amount: int): Move
  {
    [Posting(s.expenseAccount, amount, 0), Posting(s.depreciationAccount, 0, amount)]
  }

  function DisposalMove(s: Setup, accumulated: int): Move
  {
    [Posting(s.depreciationAccount, accumulated, 0),
     Posting(s.expenseAccount, s.purchase - accumulated, 0),
     Posting(s.assetAccount, 0, s.purchase)]
  }

  function FreshLines(s: Setup): seq<AssetLine>
  {
    var schedule := Schedule(Depreciable(s), s.life, s.kind, s.firstMonth);
    seq(|schedule|, k requires 0 <= k < |schedule| => AssetLine(schedule[k], None))
  }

  // ---------------------------------------------------------------- transitions

  function ConfirmAsset(a: Asset): Result<Asset, Refusal>
  {
    if a.status != Draft then Err(NotDraft)
    else if a.setup.journal.None? then Err(NoJournal)
    else if a.setup.assetAccount.None? || a.setup.depreciationAccount.None? || a.setup.expenseAccount.None?
    then Err(NoAccounts)
    else Ok(a.(status := Running, lines := PostedLines(a.lines) + FreshLines(a.setup)))
  }

  function CloseAsset(a: Asset): Result<Asset, Refusal>
  {
    if a.status != Running then Err(NotRunning) else Ok(a.(status := Closed))
  }

  function ResetAsset(a: Asset): Result<Asset, Refusal>
  {
    if PostedCount(a.lines) > 0 then Err(HasPostedEntries) else Ok(a.(lines := [], status := Draft))
  }

  function DisposeAsset(a: Asset): Result<Asset, Refusal>
  {
    if a.status != Running && a.status != Closed then Err(NotDisposable)
    else if BookValue(a) <= 0 then Ok(a.(status := Disposed))
    else Ok(a.(status := Disposed, disposal := Some(|a.ledger|),
               ledger := a.ledger + [DisposalMove(a.setup, Accumulated(a.lines))]))
  }

  function PostLine(a: Asset, k: nat): Asset
    requires k < |a.lines|
  {
    a.(lines := a.lines[k := a.lines[k].(move := Some(|a.ledger|))],
       ledger := a.ledger + [DepreciationMove(a.setup, a.lines[k].line.amount)])
  }

  predicate Due(l: AssetLine, today: int) { l.move.None? && l.line.month <= today }

  function PostDue(a: Asset, k: nat, today: int): Asset
    requires k <= |a.lines|
    decreases |a.lines| - k
  {
    if k == |a.lines| then a
    else PostDue(if Due(a.lines[k], today) then PostLine(a, k) else a, k + 1, today)
  }

  function PostAsset(a: Asset, today: int): Asset
  {
    if a.status != Running then a
    else
      var b := PostDue(a, 0, today);
      if BookValue(b) <= b.setup.salvage then b.(status := Closed) else b
  }

  function Apply(a: Asset, act: Action): Result<Asset, Refusal>
  {
    match act
    case Confirm => ConfirmAsset(a)
    case Post(today) => Ok(PostAsset(a, today))
    case Close => CloseAsset(a)
    case SetToDraft => ResetAsset(a)
    case Dispose => DisposeAsset(a)
  }

  function Step(a: Asset, act: Action): Asset
  {
    match Apply(a, act)
    case Ok(b) => b
    case Err(_) => a
  }

  function Run(a: Asset, acts: seq<Action>): Asset
    decreases acts
  {
    if acts == [] then a else Run(Step(a, acts[0]), acts[1..])
  }

  function NewAsset(s: Setup): Asset { Asset(s, Draft, [], None, []) }

  // ---------------------------------------------------------------- invariant

  ghost predicate DistinctAccounts(s: Setup)
  {
    s.assetAccount != s.depreciationAccount &&
    s.assetAccount != s.expenseAccount &&
    s.depreciationAccount != s.expenseAccount
  }

  predicate NeverNegative(s: Setup) { Covered(Depreciable(s), s.life, s.kind) }

  ghost predicate OnSchedule(a: Asset)
  {
    var schedule := Schedule(Depreciable(a.setup), a.setup.life, a.setup.kind, a.setup.firstMonth);
    |a.lines| == |schedule| && forall k :: 0 <= k < |schedule| ==> a.lines[k].line == schedule[k]
  }

  /** Every posted line has a move of its own, which books exactly its amount. */
  ghost predicate OneMovePerLine(a: Asset)
  {
    (forall k :: 0 <= k < |a.lines| && a.lines[k].move.Some? ==>
      && a.lines[k].move.value < |a.ledger|
      && a.ledger[a.lines[k].move.value] == DepreciationMove(a.setup, a.lines[k].line.amount)
      && a.disposal != a.lines[k].move) &&
    (forall j, k :: 0 <= j < k < |a.lines| && a.lines[j].move.Some? ==> a.lines[j].move != a.lines[k].move)
  }

  /** The three account balances, as the schedule and the status say they should be. */
  ghost predicate LedgerAgrees(a: Asset)
  {
    var gone := a.disposal.Some?;
    && LedgerNet(a.ledger, a.setup.depreciationAccount) == (if gone then 0 else -Accumulated(a.lines))
    && LedgerNet(a.ledger, a.setup.assetAccount) == (if gone then -a.setup.purchase else 0)
    && LedgerNet(a.ledger, a.setup.expenseAccount) == (if gone then a.setup.purchase else Accumulated(a.lines))
    && |a.ledger| == PostedCount(a.lines) + (if gone then 1 else 0)
    && forall m :: 0 <= m < |a.ledger| ==> Total(a.ledger[m]) == 0
  }

  ghost predicate StatusAgrees(a: Asset)
  {
    && (a.status == Draft ==> a.lines == [] && a.ledger == [])
    && (a.status != Draft ==> OnSchedule(a))
    && (a.status == Running ==> Accumulated(a.lines) < Depreciable(a.setup))
    && (a.disposal.Some? ==> a.status == Disposed && a.disposal.value < |a.ledger|
                             && a.ledger[a.disposal.value] == DisposalMove(a.setup, Accumulated(a.lines)))
    && (a.status == Disposed ==> (a.disposal.None? <==> BookValue(a) <= 0))
  }

  ghost predicate Inv(a: Asset)
  {
    && Constraints(a.setup) && NeverNegative(a.setup) && DistinctAccounts(a.setup)
    && StatusAgrees(a) && OneMovePerLine(a) && LedgerAgrees(a)
  }

  // ---------------------------------------------------------------- lines

  lemma {:induction false} PostingALine(lines: seq<AssetLine>, k: nat, id: nat)
    requires k < |lines| && lines[k].move.None?
    ensures var after := lines[k := lines[k].(move := Some(id))];
      && Accumulated(after) == Accumulated(lines) + lines[k].line.amount
      && PostedCount(after) == PostedCount(lines) + 1
  {
    var after := lines[k := lines[k].(move := Some(id))];
    if k == 0 {
      assert after[1..] == lines[1..];
    } else {
      assert after[1..] == lines[1..][k - 1 := lines[k].(move := Some(id))];
      PostingALine(lines[1..], k - 1, id);
    }
  }

  lemma {:induction false} AccumulatedBounds(lines: seq<AssetLine>, amounts: seq<int>)
    requires |amounts| == |lines|
    requires forall k :: 0 <= k < |lines| ==> lines[k].line.amount == amounts[k] >= 0
    ensures 0 <= Accumulated(lines) <= Sum(amounts)
  {
    if lines != [] { AccumulatedBounds(lines[1..], amounts[1..]); }
  }

  lemma {:induction false} NothingPosted(lines: seq<AssetLine>)
    ensures PostedCount(lines) == 0 <==> forall k :: 0 <= k < |lines| ==> lines[k].move.None?
    ensures PostedCount(lines) == 0 ==> Accumulated(lines) == 0
  {
    if lines != [] {
      NothingPosted(lines[1..]);
      assert forall k :: 0 <= k < |lines| - 1 ==> lines[1..][k] == lines[k + 1];
      if PostedCount(lines) == 0 {
        assert forall k :: 0 < k < |lines| ==> lines[k] == lines[1..][k - 1];
      }
    }
  }

  /** On schedule, the book value never leaves the range from salvage to purchase value. */
  lemma BookValueBounds(a: Asset)
    requires Constraints(a.setup) && NeverNegative(a.setup)
    requires a.lines == [] || OnSchedule(a)
    ensures 0 <= Accumulated(a.lines) <= Depreciable(a.setup)
    ensures a.setup.salvage <= BookValue(a) <= a.setup.purchase
  {
    if a.lines != [] {
      var value := Depreciable(a.setup);
      var plan := Plan(value, a.setup.life, a.setup.kind);
      PlanConserves(value, a.setup.life, a.setup.kind);
      AccumulatedBounds(a.lines, plan);
    }
  }

  // ---------------------------------------------------------------- every step keeps the invariant

  lemma DepreciationMoveNets(s: Setup, amount: int)
    requires DistinctAccounts(s)
    ensures var m := DepreciationMove(s, amount);
      && Total(m) == 0
      && Net(m, s.depreciationAccount) == -amount
      && Net(m, s.assetAccount) == 0
      && Net(m, s.expenseAccount) == amount
  {
    var m := DepreciationMove(s, amount);
    NetOfTwo(m[0], m[1], s.depreciationAccount);
    NetOfTwo(m[0], m[1], s.assetAccount);
    NetOfTwo(m[0], m[1], s.expenseAccount);
  }

  lemma DisposalMoveNets(s: Setup, accumulated: int)
    requires DistinctAccounts(s)
    ensures var m := DisposalMove(s, accumulated);
      && Total(m) == 0
      && Net(m, s.depreciationAccount) == accumulated
      && Net(m, s.assetAccount) == -s.purchase
      && Net(m, s.expenseAccount) == s.purchase - accumulated
  {
    var m := DisposalMove(s, accumulated);
    NetOfThree(m[0], m[1], m[2], s.depreciationAccount);
    NetOfThree(m[0], m[1], m[2], s.assetAccount);
    NetOfThree(m[0], m[1], m[2], s.expenseAccount);
  }

  /** What the loop over the due lines keeps: all of `Inv` but the running asset's slack. */
  ghost predicate PostingInv(a: Asset)
  {
    && Constraints(a.setup) && NeverNegative(a.setup) && DistinctAccounts(a.setup)
    && a.status == Running && a.disposal.None?
    && OnSchedule(a) && OneMovePerLine(a) && LedgerAgrees(a)
  }

  lemma PostLineKeeps(a: Asset, k: nat)
    requires PostingInv(a) && k < |a.lines| && a.lines[k].move.None?
    ensures PostingInv(PostLine(a, k))
  {
    var b := PostLine(a, k);
    var amount := a.lines[k].line.amount;
    PostingALine(a.lines, k, |a.ledger|);
    DepreciationMoveNets(a.setup, amount);
    LedgerNetAppend(a.ledger, DepreciationMove(a.setup, amount), a.setup.depreciationAccount);
    LedgerNetAppend(a.ledger, DepreciationMove(a.setup, amount), a.setup.assetAccount);
    LedgerNetAppend(a.ledger, DepreciationMove(a.setup, amount), a.setup.expenseAccount);
    assert OnSchedule(b);
    assert OneMovePerLine(b);
  }

  lemma {:induction false} PostDueKeeps(a: Asset, k: nat, today: int)
    requires PostingInv(a) && k <= |a.lines|
    ensures PostingInv(PostDue(a, k, today))
    ensures PostDue(a, k, today).setup == a.setup
    decreases |a.lines| - k
  {
    if k < |a.lines| {
      if Due(a.lines[k], today) {
        PostLineKeeps(a, k);
        PostDueKeeps(PostLine(a, k), k + 1, today);
      } else {
        PostDueKeeps(a, k + 1, today);
      }
    }
  }

  /** Posting closes the asset exactly when the posted amounts reach the depreciable value. */
  lemma AutoClose(a: Asset, today: int)
    requires Inv(a) && a.status == Running
    ensures var b := PostAsset(a, today);
      && Inv(b)
      && (b.status == Closed <==> Accumulated(b.lines) == Depreciable(b.setup))
      && (b.status == Running <==> Accumulated(b.lines) < Depreciable(b.setup))
  {
    PostDueKeeps(a, 0, today);
    BookValueBounds(PostDue(a, 0, today));
  }

  /** The schedule of a draft that is confirmed. */
  lemma FreshOnSchedule(a: Asset)
    requires Constraints(a.setup) && a.lines == [] && ConfirmAsset(a).Ok?
    ensures var b := ConfirmAsset(a).value;
      OnSchedule(b) && PostedCount(b.lines) == 0 && Accumulated(b.lines) == 0
      && forall k :: 0 <= k < |b.lines| ==> b.lines[k].move.None?
  {
    hide Schedule;
    var b := ConfirmAsset(a).value;
    assert b.lines == FreshLines(a.setup);
    NothingPosted(b.lines);
  }

  lemma {:induction false} PostedLinesExactly(lines: seq<AssetLine>)
    ensures forall l :: l in PostedLines(lines) <==> l in lines && l.move.Some?
    ensures Accumulated(PostedLines(lines)) == Accumulated(lines)
    ensures PostedCount(PostedLines(lines)) == PostedCount(lines) == |PostedLines(lines)|
  {
    if lines != [] {
      PostedLinesExactly(lines[1..]);
      if lines[0].move.Some? {
        assert PostedLines(lines)[1..] == PostedLines(lines[1..]);
      } else {
        assert PostedLines(lines) == PostedLines(lines[1..]);
      }
    }
  }

  /** Confirming replaces exactly the lines that are not posted by a new schedule, whatever lines the
      draft had. */
  lemma ConfirmReplacesUnposted(a: Asset)
    requires ConfirmAsset(a).Ok?
    ensures var b := ConfirmAsset(a).value;
      var schedule := Schedule(Depreciable(a.setup), a.setup.life, a.setup.kind, a.setup.firstMonth);
      var n := PostedCount(a.lines);
      && b.status == Running && b.ledger == a.ledger && |b.lines| == n + |schedule|
      && (forall l :: l in b.lines[..n] <==> l in a.lines && l.move.Some?)
      && (forall k :: 0 <= k < |schedule| ==> b.lines[n + k] == AssetLine(schedule[k], None))
  {
    hide Schedule, PostedLines, PostedCount;
    PostedLinesExactly(a.lines);
    assert ConfirmAsset(a).value.lines[..PostedCount(a.lines)] == PostedLines(a.lines);
  }

  lemma ConfirmKeeps(a: Asset)
    requires Inv(a) && ConfirmAsset(a).Ok?
    ensures Inv(ConfirmAsset(a).value)
  {
    FreshOnSchedule(a);
    hide Schedule, OnSchedule, NeverNegative, PostedLines, FreshLines, LedgerNet, Accumulated, PostedCount;
    EmptyLedger(a);
  }

  lemma EmptyLedger(a: Asset)
    requires Inv(a) && a.status == Draft
    ensures a.ledger == [] && forall account :: LedgerNet(a.ledger, account) == 0
  {}

  lemma DisposeKeeps(a: Asset)
    requires Inv(a) && DisposeAsset(a).Ok?
    ensures Inv(DisposeAsset(a).value)
  {
    hide Schedule, Covered, Accumulated, PostedCount, LedgerNet;
    var accumulated := Accumulated(a.lines);
    var m := DisposalMove(a.setup, accumulated);
    DisposalMoveNets(a.setup, accumulated);
    LedgerNetAppend(a.ledger, m, a.setup.depreciationAccount);
    LedgerNetAppend(a.ledger, m, a.setup.assetAccount);
    LedgerNetAppend(a.ledger, m, a.setup.expenseAccount);
  }

  lemma StepKeeps(a: Asset, act: Action)
    requires Inv(a)
    requires act == SetToDraft ==> a.status != Disposed
    ensures Inv(Step(a, act))
  {
    match act
    case Confirm => if ConfirmAsset(a).Ok? { ConfirmKeeps(a); }
    case Post(today) => if a.status == Running { AutoClose(a, today); }
    case Close =>
    case SetToDraft => NothingPosted(a.lines);
    case Dispose => if DisposeAsset(a).Ok? { DisposeKeeps(a); }
  }

  /** Resetting a disposed asset breaks the invariant precisely when the code lets it through:
      the write-off stays in the ledger of an asset that is a draft again. */
  lemma ResetOfDisposedExactly(a: Asset)
    requires Inv(a) && a.status == Disposed
    ensures Inv(Step(a, SetToDraft)) <==> PostedCount(a.lines) > 0
  {
    if PostedCount(a.lines) == 0 {
      NothingPosted(a.lines);
      assert a.disposal.Some?;
      var b := Step(a, SetToDraft);
      assert b.status == Draft && b.ledger == a.ledger != [];
    }
  }

  // ---------------------------------------------------------------- whole runs

  /** No reset of a disposed asset anywhere in the run. */
  ghost predicate KeepsDisposed(a: Asset, acts: seq<Action>)
    decreases acts
  {
    acts == [] ||
    ((acts[0] == SetToDraft ==> a.status != Disposed) && KeepsDisposed(Step(a, acts[0]), acts[1..]))
  }

  lemma {:induction false} RunKeeps(a: Asset, acts: seq<Action>)
    requires Inv(a) && KeepsDisposed(a, acts)
    ensures Inv(Run(a, acts))
    decreases acts
  {
    if acts != [] {
      StepKeeps(a, acts[0]);
      RunKeeps(Step(a, acts[0]), acts[1..]);
    }
  }

  ghost predicate Safe(s: Setup, a: Asset)
  {
    && a.setup == s
    && (a.disposal.None? ==> -LedgerNet(a.ledger, s.depreciationAccount) == Accumulated(a.lines))
    && s.salvage <= BookValue(a) <= s.purchase
    && OneMovePerLine(a)
    && |a.ledger| == PostedCount(a.lines) + (if a.disposal.Some? then 1 else 0)
    && (forall m :: 0 <= m < |a.ledger| ==> Total(a.ledger[m]) == 0)
    && (a.status == Running ==> Accumulated(a.lines) < Depreciable(s))
    && (a.disposal.Some? ==>
          && LedgerNet(a.ledger, s.depreciationAccount) == 0
          && LedgerNet(a.ledger, s.assetAccount) == -s.purchase
          && LedgerNet(a.ledger, s.expenseAccount) == s.purchase)
    && (a.status == Disposed ==> (a.disposal.None? <==> s.salvage == 0 && Accumulated(a.lines) == s.purchase))
    && (a.status == Disposed && a.disposal.None? ==>
          && LedgerNet(a.ledger, s.depreciationAccount) == -s.purchase
          && LedgerNet(a.ledger, s.assetAccount) == 0)
  }

  /** Over every run of a valid asset: before disposal the accumulated-depreciation account's
      credit balance is the accumulated depreciation and the book value stays between salvage
      and purchase value; every posted line has one move of its own; a running asset is not
      fully depreciated; a disposal entry leaves the depreciation account at zero, takes the
      whole purchase value off the asset account and expenses exactly the purchase value; a
      disposed asset has no such entry exactly when it has no salvage value and is fully
      depreciated, and then both the depreciation account and the asset account are left as
      they were: the whole purchase value stays credited to the one and nothing leaves the other. */
  lemma AssetRunSafety(s: Setup, acts: seq<Action>)
    requires Constraints(s) && NeverNegative(s) && DistinctAccounts(s)
    requires KeepsDisposed(NewAsset(s), acts)
    ensures Safe(s, Run(NewAsset(s), acts))
  {
    var a0 := NewAsset(s);
    assert Inv(a0);
    RunKeeps(a0, acts);
    RunKeepsSetup(a0, acts);
    BookValueBounds(Run(a0, acts));
  }

  lemma {:induction false} PostDueFrame(a: Asset, k: nat, today: int)
    requires k <= |a.lines|
    ensures PostDue(a, k, today).setup == a.setup && PostDue(a, k, today).status == a.status
    decreases |a.lines| - k
  {
    if k < |a.lines| {
      PostDueFrame(if Due(a.lines[k], today) then PostLine(a, k) else a, k + 1, today);
    }
  }

  lemma {:induction false} RunKeepsSetup(a: Asset, acts: seq<Action>)
    ensures Run(a, acts).setup == a.setup
    decreases acts
  {
    if acts != [] {
      if acts[0].Post? { PostDueFrame(a, 0, acts[0].today); }
      RunKeepsSetup(Step(a, acts[0]), acts[1..]);
    }
  }

  /** Once closed or disposed, and until a reset, no line is ever posted again. */
  lemma {:induction false} NothingPostedAfterClose(a: Asset, acts: seq<Action>)
    requires a.status == Closed || a.status == Disposed
    requires SetToDraft !in acts
    ensures Run(a, acts).lines == a.lines
    ensures Run(a, acts).status == Closed || Run(a, acts).status == Disposed
    decreases acts
  {
    if acts != [] {
      assert acts[0] in acts;
      NothingPostedAfterClose(Step(a, acts[0]), acts[1..]);
    }
  }

  /** An asset disposed before its first posting can be reset and disposed again: the asset
      account is then credited twice. */
  lemma DisposedTwice(s: Setup)
    requires Constraints(s) && NeverNegative(s) && DistinctAccounts(s)
    requires s.journal.Some? && s.assetAccount.Some? && s.depreciationAccount.Some? && s.expenseAccount.Some?
    ensures var first := Step(Step(NewAsset(s), Confirm), Dispose);
      LedgerNet(Step(Step(Step(first, SetToDraft), Confirm), Dispose).ledger, s.assetAccount) == -2 * s.purchase
  {
    hide DisposalMove, Schedule;
    FreshDisposal(NewAsset(s));
    var first := Step(Step(NewAsset(s), Confirm), Dispose);
    NothingPosted(FreshLines(s));
    var draft := Step(first, SetToDraft);
    FreshDisposal(draft);
    DisposalMoveNets(s, 0);
    LedgerNetAppend([], DisposalMove(s, 0), s.assetAccount);
    LedgerNetAppend(first.ledger, DisposalMove(s, 0), s.assetAccount);
  }

  /** One peso over one month, for instance. */
  lemma OnePesoTwice()
    ensures var s := Setup(100, 0, Linear, 1, 0, Some(1), Some(2), Some(3), Some(4));
      var first := Step(Step(NewAsset(s), Confirm), Dispose);
      LedgerNet(Step(Step(Step(first, SetToDraft), Confirm), Dispose).ledger, s.assetAccount) == -200
  {
    hide Step, LedgerNet;
    DisposedTwice(Setup(100, 0, Linear, 1, 0, Some(1), Some(2), Some(3), Some(4)));
  }

  lemma FreshDisposal(a: Asset)
    requires Constraints(a.setup) && a.status == Draft && a.lines == []
    requires ConfirmAsset(a).Ok?
    ensures var b := Step(Step(a, Confirm), Dispose);
      && b.status == Disposed && b.lines == FreshLines(a.setup) && b.setup == a.setup
      && b.ledger == a.ledger + [DisposalMove(a.setup, 0)]
  {
    hide DisposalMove, Schedule;
    assert Step(a, Confirm).lines == FreshLines(a.setup);
    NothingPosted(FreshLines(a.setup));
  }

  // ---------------------------------------------------------------- disposal without an entry

  lemma {:induction false} AllPosted(lines: seq<AssetLine>, amounts: seq<int>)
    requires |amounts| == |lines|
    requires forall k :: 0 <= k < |lines| ==> lines[k].line.amount == amounts[k] && lines[k].move.Some?
    ensures Accumulated(lines) == Sum(amounts)
  {
    if lines != [] { AllPosted(lines[1..], amounts[1..]); }
  }

  /** A confirmed asset without salvage value, depreciated to the end and disposed: no entry is
      booked, the asset is off the register and still on the books. */
  lemma DisposedWithoutEntry(s: Setup, today: int)
    requires Constraints(s) && NeverNegative(s) && DistinctAccounts(s) && s.salvage == 0
    requires s.journal.Some? && s.assetAccount.Some? && s.depreciationAccount.Some? && s.expenseAccount.Some?
    requires today >= s.firstMonth + s.life
    ensures var a := Run(NewAsset(s), [Confirm, Post(today), Dispose]);
      && a.status == Disposed && a.disposal.None?
      && LedgerNet(a.ledger, s.depreciationAccount) == -s.purchase
      && LedgerNet(a.ledger, s.assetAccount) == 0
  {
    hide Schedule, Plan, Covered, LedgerNet, Accumulated;
    var acts := [Confirm, Post(today), Dispose];
    var confirmed := Step(NewAsset(s), Confirm);
    ConfirmFromDraft(s);
    PostToTheEnd(confirmed, today);
    var posted := Step(confirmed, Post(today));
    var a := Step(posted, Dispose);
    assert acts[1..] == [Post(today), Dispose] && acts[1..][1..] == [Dispose] && [Dispose][1..] == [];
    assert Run(NewAsset(s), acts) == Run(confirmed, acts[1..]) == Run(posted, [Dispose]) == Run(a, []) == a;
  }

  lemma ConfirmFromDraft(s: Setup)
    requires Constraints(s) && NeverNegative(s) && DistinctAccounts(s)
    requires s.journal.Some? && s.assetAccount.Some? && s.depreciationAccount.Some? && s.expenseAccount.Some?
    ensures var a := Step(NewAsset(s), Confirm);
      Inv(a) && a.status == Running && a.setup == s && a.disposal.None?
  {
    assert Inv(NewAsset(s));
    ConfirmKeeps(NewAsset(s));
  }

  lemma PostToTheEnd(a: Asset, today: int)
    requires Inv(a) && a.status == Running && a.disposal.None?
    requires today >= a.setup.firstMonth + a.setup.life
    ensures var b := Step(a, Post(today));
      && Inv(b) && b.status == Closed && b.setup == a.setup && b.disposal.None?
      && Accumulated(b.lines) == Depreciable(a.setup)
  {
    hide LedgerAgrees, OneMovePerLine, NeverNegative;
    var value := Depreciable(a.setup);
    AutoClose(a, today);
    PostDueFrame(a, 0, today);
    PostDueKeeps(a, 0, today);
    PlanConserves(value, a.setup.life, a.setup.kind);
    PostDueExact(a, 0, today);
    AllPosted(PostDue(a, 0, today).lines, Plan(value, a.setup.life, a.setup.kind));
  }

  /** One peso over one month, for instance. */
  lemma OnePesoStays()
    ensures var s := Setup(100, 0, Linear, 1, 0, Some(1), Some(2), Some(3), Some(4));
      var a := Run(NewAsset(s), [Confirm, Post(1), Dispose]);
      && a.status == Disposed && a.disposal.None?
      && LedgerNet(a.ledger, s.depreciationAccount) == -100 && LedgerNet(a.ledger, s.assetAccount) == 0
  {
    DisposedWithoutEntry(Setup(100, 0, Linear, 1, 0, Some(1), Some(2), Some(3), Some(4)), 1);
  }

  // ---------------------------------------------------------------- the assumptions are needed

  predicate Confirmable(s: Setup)
  {
    s.journal.Some? && s.assetAccount.Some? && s.depreciationAccount.Some? && s.expenseAccount.Some?
  }

  /** What posting leaves: every due line posted, the amounts as they were. */
  lemma {:induction false} PostDueExact(a: Asset, k: nat, today: int)
    requires k <= |a.lines|
    ensures var lines := PostDue(a, k, today).lines;
      && |lines| == |a.lines|
      && forall i :: 0 <= i < |lines| ==>
           && lines[i].line == a.lines[i].line
           && (lines[i].move.Some? <==> a.lines[i].move.Some? || (k <= i && a.lines[i].line.month <= today))
    decreases |a.lines| - k
  {
    if k < |a.lines| {
      PostDueExact(if Due(a.lines[k], today) then PostLine(a, k) else a, k + 1, today);
    }
  }

  lemma {:induction false} AllButLast(lines: seq<AssetLine>, amounts: seq<int>)
    requires |amounts| == |lines| > 0
    requires forall k :: 0 <= k < |lines| ==>
      lines[k].line.amount == amounts[k] && (lines[k].move.Some? <==> k < |lines| - 1)
    ensures Accumulated(lines) == Sum(amounts) - amounts[|amounts| - 1]
  {
    if |lines| > 1 { AllButLast(lines[1..], amounts[1..]); }
  }

  lemma NegativeLast(s: Setup)
    requires Constraints(s) && !NeverNegative(s)
    ensures var plan := Plan(Depreciable(s), s.life, s.kind);
      |plan| == s.life && Sum(plan) == Depreciable(s) && plan[s.life - 1] < 0
  {
    LinearPlanConserves(Depreciable(s), s.life);
    LinearNonNegativeExactly(Depreciable(s), s.life);
    LinearNegativeIsLast(Depreciable(s), s.life);
  }

  lemma PostedButLast(a: Asset, today: int)
    requires a.lines != [] && OnSchedule(a) && forall k :: 0 <= k < |a.lines| ==> a.lines[k].move.None?
    requires today == a.setup.firstMonth + |a.lines| - 2
    ensures var plan := Plan(Depreciable(a.setup), a.setup.life, a.setup.kind);
      |plan| == |a.lines| && Accumulated(PostDue(a, 0, today).lines) == Sum(plan) - plan[|plan| - 1]
  {
    hide Plan;
    PostDueExact(a, 0, today);
    AllButLast(PostDue(a, 0, today).lines, Plan(Depreciable(a.setup), a.setup.life, a.setup.kind));
  }

  lemma TwoSteps(a: Asset, first: Action, second: Action)
    requires first != SetToDraft && second != SetToDraft
    ensures KeepsDisposed(a, [first, second])
    ensures Run(a, [first, second]) == Step(Step(a, first), second)
  {
    hide Step;
    var b, c := Step(a, first), Step(Step(a, first), second);
    var acts := [first, second];
    assert acts[1..] == [second] && acts[1..][1..] == [];
    assert Run(c, []) == c && Run(b, acts[1..]) == c;
    assert KeepsDisposed(c, []) && KeepsDisposed(b, acts[1..]);
  }

  /** A schedule with a negative last line takes the book value below salvage just before it. */
  lemma BookValueBroken(s: Setup)
    requires Constraints(s) && Confirmable(s) && !NeverNegative(s)
    ensures var acts := [Confirm, Post(s.firstMonth + s.life - 2)];
      KeepsDisposed(NewAsset(s), acts) && BookValue(Run(NewAsset(s), acts)) < s.salvage
  {
    var today := s.firstMonth + s.life - 2;
    var a := Step(NewAsset(s), Confirm);
    TwoSteps(NewAsset(s), Confirm, Post(today));
    NegativeLast(s);
    FreshOnSchedule(NewAsset(s));
    LinesOnPlan(a);
    PostedButLast(a, today);
    hide NeverNegative, Plan, Sum, Accumulated, PostDue, FreshLines, Run, KeepsDisposed, OnSchedule;
    PostDueFrame(a, 0, today);
  }

  lemma LinesOnPlan(a: Asset)
    requires OnSchedule(a)
    ensures |a.lines| == |Plan(Depreciable(a.setup), a.setup.life, a.setup.kind)|
  {
    hide Plan;
  }

  /** With two of the accounts the same, the entry of an immediate disposal leaves a wrong balance. */
  lemma BalancesBroken(s: Setup)
    requires Constraints(s) && Confirmable(s) && !DistinctAccounts(s)
    ensures var acts := [Confirm, Dispose];
      KeepsDisposed(NewAsset(s), acts) && !Safe(s, Run(NewAsset(s), acts))
  {
    hide Schedule;
    FreshDisposal(NewAsset(s));
    var a := Step(NewAsset(s), Confirm);
    var b := Step(a, Dispose);
    assert b.disposal.Some? by { NothingPosted(FreshLines(s)); }
    TwoSteps(NewAsset(s), Confirm, Dispose);
    var m := DisposalMove(s, 0);
    NetOfThree(m[0], m[1], m[2], s.depreciationAccount);
    NetOfThree(m[0], m[1], m[2], s.assetAccount);
    LedgerNetAppend([], m, s.depreciationAccount);
    LedgerNetAppend([], m, s.assetAccount);
  }

  /** An asset without journal or accounts never leaves draft. */
  lemma {:induction false} StaysDraft(s: Setup, acts: seq<Action>)
    requires !Confirmable(s)
    ensures Run(NewAsset(s), acts) == NewAsset(s)
    decreases acts
  {
    if acts != [] {
      assert Step(NewAsset(s), acts[0]) == NewAsset(s);
      StaysDraft(s, acts[1..]);
    }
  }

  ghost predicate AlwaysSafe(s: Setup)
  {
    forall acts :: KeepsDisposed(NewAsset(s), acts) ==> Safe(s, Run(NewAsset(s), acts))
  }

  /** Every run of an asset that can be confirmed is safe exactly when its schedule has no negative
      line and its three accounts are different. */
  lemma AssetSafeExactly(s: Setup)
    requires Constraints(s)
    ensures AlwaysSafe(s) <==> !Confirmable(s) || (NeverNegative(s) && DistinctAccounts(s))
  {
    hide Safe, NeverNegative, DistinctAccounts;
    if !Confirmable(s) {
      forall acts ensures Safe(s, Run(NewAsset(s), acts)) { StaysDraft(s, acts); DraftSafe(s); }
    } else if !NeverNegative(s) {
      BookValueBroken(s);
      var acts := [Confirm, Post(s.firstMonth + s.life - 2)];
      BelowSalvage(s, Run(NewAsset(s), acts));
    } else if !DistinctAccounts(s) {
      BalancesBroken(s);
    } else {
      forall acts | KeepsDisposed(NewAsset(s), acts) ensures Safe(s, Run(NewAsset(s), acts)) {
        AssetRunSafety(s, acts);
      }
    }
  }

  lemma DraftSafe(s: Setup)
    requires Constraints(s)
    ensures Safe(s, NewAsset(s))
  {}

  lemma BelowSalvage(s: Setup, a: Asset)
    requires BookValue(a) < s.salvage
    ensures !Safe(s, a)
  {}

  // ---------------------------------------------------------------- the record itself

  class AssetRecord {
    const setup: Setup
    var status: Status
    var lines: seq<AssetLine>
    var disposal: Option<nat>
    var ledger: seq<Move>

    ghost function Value(): Asset
      reads this
    {
      Asset(setup, status, lines, disposal, ledger)
    }

    constructor (s: Setup)
      ensures Value() == NewAsset(s)
    {
      setup, status, lines, disposal, ledger := s, Draft, [], None, [];
    }

    method ActionConfirm() returns (r: Result<(), Refusal>)
      modifies this
      ensures r.Ok? <==> Apply(old(Value()), Confirm).Ok?
      ensures r.Err? ==> r.error == Apply(old(Value()), Confirm).error
      ensures Value() == Step(old(Value()), Confirm)
    {
      if status != Draft { return Err(NotDraft); }
      if setup.journal.None? { return Err(NoJournal); }
      if setup.assetAccount.None? || setup.depreciationAccount.None? || setup.expenseAccount.None? {
        return Err(NoAccounts);
      }
      status := Running;
      var schedule := GenerateSchedule(Depreciable(setup), setup.life, setup.kind, setup.firstMonth);
      var kept := PostedLines(lines);
      lines := kept + seq(|schedule|, k requires 0 <= k < |schedule| => AssetLine(schedule[k], None));
      r := Ok(());
    }

    method ActionClose() returns (r: Result<(), Refusal>)
      modifies this
      ensures r.Ok? <==> Apply(old(Value()), Close).Ok?
      ensures Value() == Step(old(Value()), Close)
    {
      if status != Running { return Err(NotRunning); }
      status := Closed;
      r := Ok(());
    }

    method ActionSetToDraft() returns (r: Result<(), Refusal>)
      modifies this
      ensures r.Ok? <==> Apply(old(Value()), SetToDraft).Ok?
      ensures Value() == Step(old(Value()), SetToDraft)
    {
      if PostedCount(lines) > 0 { return Err(HasPostedEntries); }
      lines := [];
      status := Draft;
      r := Ok(());
    }

    method ActionDispose() returns (r: Result<(), Refusal>)
      modifies this
      ensures r.Ok? <==> Apply(old(Value()), Dispose).Ok?
      ensures Value() == Step(old(Value()), Dispose)
    {
      if status != Running && status != Closed { return Err(NotDisposable); }
      var accumulated := Accumulated(lines);
      var book := setup.purchase - accumulated;
      if book <= 0 {
        status := Disposed;
        return Ok(());
      }
      var move := [Posting(setup.depreciationAccount, accumulated, 0),
                   Posting(setup.expenseAccount, book, 0),
                   Posting(setup.assetAccount, 0, setup.purchase)];
      status, disposal, ledger := Disposed, Some(|ledger|), ledger + [move];
      r := Ok(());
    }

    method PostEntry(k: nat)
      requires k < |lines| && lines[k].move.None?
      modifies this
      ensures Value() == PostLine(old(Value()), k)
    {
      var amount := lines[k].line.amount;
      var move := [Posting(setup.expenseAccount, amount, 0), Posting(setup.depreciationAccount, 0, amount)];
      var id := |ledger|;
      ledger := ledger + [move];
      lines := lines[k := lines[k].(move := Some(id))];
    }

    method ActionPostDepreciation(today: int)
      modifies this
      ensures Value() == Step(old(Value()), Post(today))
    {
      if status != Running { return; }
      var k := 0;
      while k < |lines|
        invariant k <= |lines| == |old(lines)| && status == Running
        invariant PostDue(Value(), k, today) == PostDue(old(Value()), 0, today)
      {
        if Due(lines[k], today) {
          PostEntry(k);
        }
        k := k + 1;
      }
      if setup.purchase - Accumulated(lines) <= setup.salvage {
        var _ := ActionClose();
      }
    }
  }
}
